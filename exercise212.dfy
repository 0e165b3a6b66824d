/** The first phonebook with a backend: load once, then post new entries.
    Neither request has a rejection handler. */
module Exercise212 {
  import opened Outcomes
  import opened Phonebook

  class App {
    var persons: seq<Person>
    var newName: string
    var newNumber: string

    constructor ()
      ensures persons == [] && newName == "" && newNumber == ""
    {
      persons, newName, newNumber := [], "", "";
    }

    /** The mount effect: a fulfilled GET replaces `persons` wholesale; a
        rejected one is not handled and changes nothing. */
    method LoadPersons(reply: Response<seq<Person>>)
      modifies this`persons
      ensures reply.Ok? ==> persons == reply.value
      ensures reply.Err? ==> persons == old(persons)
    {
      if reply.Ok? {
        persons := reply.value;
      }
    }

    method HandleNameChange(value: string)
      modifies this`newName
      ensures newName == value
    {
      newName := value;
    }

    method HandleNumberChange(value: string)
      modifies this`newNumber
      ensures newNumber == value
    {
      newNumber := value;
    }

    /** Always posts `{name: newName, number: newNumber}`, with no duplicate
        check. A fulfilled post appends the returned entry and clears both
        inputs; a rejected one changes nothing. */
    method AddPerson(reply: Response<Person>) returns (sent: Request)
      modifies this`persons, this`newName, this`newNumber
      ensures sent == Create(Draft(old(newName), old(newNumber)))
      ensures reply.Ok? ==> persons == old(persons) + [reply.value] && newName == "" && newNumber == ""
      ensures reply.Err? ==> persons == old(persons) && newName == old(newName) && newNumber == old(newNumber)
    {
      var personObject := Draft(newName, newNumber);
      sent := Create(personObject);
      if reply.Ok? {
        persons := persons + [reply.value];
        newName := "";
        newNumber := "";
      }
    }
  }
}
