/** The phonebook that reports through a single message slot: every create is
    posted (no duplicate check) and the outcome is shown for five seconds. */
module Exercise213 {
  import opened Outcomes
  import opened Phonebook

  /** `{errorMessage && <div>…</div>}`: the slot is shown only when it holds a
      truthy value, that is a non-empty string. */
  function ShownMessage(slot: Option<string>): (r: Option<string>)
    ensures r.Some? <==> slot.Some? && slot.value != ""
    ensures r.Some? ==> r == slot
  {
    match slot
    case Some(m) => if m != "" then slot else None
    case None => None
  }

  class App {
    var persons: seq<Person>
    var newName: string
    var newNumber: string
    var filter: string
    var errorMessage: Option<string>
    /** The number of `setTimeout` callbacks scheduled and not yet run. */
    ghost var pendingTimers: nat

    /** A filled slot always has a timer pending that will empty it. */
    ghost predicate Valid()
      reads this
    {
      errorMessage.Some? ==> pendingTimers > 0
    }

    constructor ()
      ensures persons == [] && newName == "" && newNumber == "" && filter == ""
      ensures Valid()
      ensures errorMessage == None && pendingTimers == 0
    {
      persons, newName, newNumber, filter := [], "", "", "";
      errorMessage := None;
      pendingTimers := 0;
    }

    /** The mount effect; a rejected GET is not handled. */
    method LoadPersons(reply: Response<seq<Person>>)
      requires Valid()
      modifies this`persons
      ensures Valid()
      ensures reply.Ok? ==> persons == reply.value
      ensures reply.Err? ==> persons == old(persons)
    {
      if reply.Ok? {
        persons := reply.value;
      }
    }

    method HandleNameChange(value: string)
      requires Valid()
      modifies this`newName
      ensures Valid()
      ensures newName == value
    {
      newName := value;
    }

    method HandleNumberChange(value: string)
      requires Valid()
      modifies this`newNumber
      ensures Valid()
      ensures newNumber == value
    {
      newNumber := value;
    }

    method HandleFilterChange(value: string)
      requires Valid()
      modifies this`filter
      ensures Valid()
      ensures filter == value
    {
      filter := value;
    }

    /** Puts `message` in the slot and schedules a timer that will empty it. */
    method DisplayError(message: string)
      requires Valid()
      modifies this`errorMessage, this`pendingTimers
      ensures Valid()
      ensures errorMessage == Some(message)
      ensures pendingTimers == old(pendingTimers) + 1
    {
      errorMessage := Some(message);
      pendingTimers := pendingTimers + 1;
    }

    /** One scheduled timer fires: the slot is emptied whatever it holds,
        even a message set after that timer was scheduled. */
    method Expire()
      requires pendingTimers > 0
      requires Valid()
      modifies this`errorMessage, this`pendingTimers
      ensures Valid()
      ensures errorMessage == None
      ensures pendingTimers == old(pendingTimers) - 1
    {
      errorMessage := None;
      pendingTimers := pendingTimers - 1;
    }

    /** Posts `{name, number}` whatever the name. A fulfilled post appends the
        returned entry, clears both inputs and shows `Added <name>`; a rejected
        one shows the server's error text and changes nothing else. */
    method AddPerson(reply: Response<Person>) returns (sent: Request)
      requires Valid()
      modifies this`persons, this`newName, this`newNumber, this`errorMessage, this`pendingTimers
      ensures Valid()
      ensures sent == Create(Draft(old(newName), old(newNumber)))
      ensures pendingTimers == old(pendingTimers) + 1
      ensures reply.Ok? ==> && persons == old(persons) + [reply.value]
                            && newName == "" && newNumber == ""
                            && errorMessage == Some("Added " + reply.value.name)
      ensures reply.Err? ==> && persons == old(persons)
                             && newName == old(newName) && newNumber == old(newNumber)
                             && errorMessage == Some(reply.message)
    {
      var personObject := Draft(newName, newNumber);
      sent := Create(personObject);
      match reply
      case Ok(returnedPerson) =>
        persons := persons + [returnedPerson];
        newName := "";
        newNumber := "";
        DisplayError("Added " + returnedPerson.name);
      case Err(error) =>
        DisplayError(error);
    }

    /** The list rendered under "Numbers". */
    function FilteredPersons(): (r: seq<Person>)
      reads this
      ensures forall p :: p in r <==> p in persons && Text.Matches(p.name, filter)
      ensures Seqs.IsSubsequence(r, persons)
    {
      FilterByName(persons, filter)
    }

    /** The message rendered, if any. */
    function Banner(): (r: Option<string>)
      reads this
      ensures r.Some? <==> errorMessage.Some? && errorMessage.value != ""
      ensures r.Some? ==> r == errorMessage
    {
      ShownMessage(errorMessage)
    }
  }
}
