/** The phonebook with update, delete and a typed notification slot. After a
    fulfilled update it replaces the entries whose id equals the id the
    server returned. */
module Exercise215 {
  import opened Outcomes
  import opened Phonebook

  class App {
    var persons: seq<Person>
    var newName: string
    var newNumber: string
    var filter: string
    var notification: Option<Notice>
    /** The number of `setTimeout` callbacks scheduled and not yet run. */
    ghost var pendingTimers: nat

    /** A filled slot always has a timer pending that will empty it. */
    ghost predicate Valid()
      reads this
    {
      notification.Some? ==> pendingTimers > 0
    }

    constructor ()
      ensures persons == [] && newName == "" && newNumber == "" && filter == ""
      ensures Valid()
      ensures notification == None && pendingTimers == 0
    {
      persons, newName, newNumber, filter := [], "", "", "";
      notification := None;
      pendingTimers := 0;
    }

    /** The mount effect; a rejected GET is not handled. */
    method LoadPersons(reply: Response<seq<Person>>)
      requires Valid()
      modifies this`persons
      ensures Valid()
      ensures reply.Ok? ==> persons == reply.value
      ensures reply.Err? ==> persons == old(persons)
    {
      if reply.Ok? {
        persons := reply.value;
      }
    }

    method HandleNameChange(value: string)
      requires Valid()
      modifies this`newName
      ensures Valid()
      ensures newName == value
    {
      newName := value;
    }

    method HandleNumberChange(value: string)
      requires Valid()
      modifies this`newNumber
      ensures Valid()
      ensures newNumber == value
    {
      newNumber := value;
    }

    method HandleFilterChange(value: string)
      requires Valid()
      modifies this`filter
      ensures Valid()
      ensures filter == value
    {
      filter := value;
    }

    /** `setNotification({message, type})` followed by a 5-second timer. */
    method Notify(message: string, kind: Kind)
      requires Valid()
      modifies this`notification, this`pendingTimers
      ensures Valid()
      ensures notification == Some(Notice(message, kind))
      ensures pendingTimers == old(pendingTimers) + 1
    {
      notification := Some(Notice(message, kind));
      pendingTimers := pendingTimers + 1;
    }

    /** One scheduled timer fires and empties the slot, whichever notification
        it holds by then. */
    method Expire()
      requires pendingTimers > 0
      requires Valid()
      modifies this`notification, this`pendingTimers
      ensures Valid()
      ensures notification == None
      ensures pendingTimers == old(pendingTimers) - 1
    {
      notification := None;
      pendingTimers := pendingTimers - 1;
    }

    /** Submitting the form. A name found by `find` asks for confirmation and,
        if confirmed, updates that entry; otherwise the name is created. */
    method AddPerson(confirmed: bool, reply: Response<Person>) returns (sent: Option<Request>)
      requires Valid()
      modifies this`persons, this`newName, this`newNumber, this`notification, this`pendingTimers
      ensures Valid()
      // declined: nothing is sent and nothing changes
      ensures var e := FindByName(old(persons), old(newName));
              e.Some? && !confirmed ==>
                && sent == None
                && persons == old(persons) && newName == old(newName) && newNumber == old(newNumber)
                && notification == old(notification) && pendingTimers == old(pendingTimers)
      // confirmed: the existing id is updated with the typed name and number
      ensures var e := FindByName(old(persons), old(newName));
              e.Some? && confirmed ==>
                && sent == Some(Update(e.value.id, Draft(old(newName), old(newNumber))))
                && pendingTimers == old(pendingTimers) + 1
      ensures var e := FindByName(old(persons), old(newName));
              e.Some? && confirmed && reply.Ok? ==>
                && persons == ReplaceById(old(persons), reply.value.id, reply.value)
                && newName == "" && newNumber == ""
                && notification == Some(Notice("Updated " + reply.value.name, Success))
      ensures var e := FindByName(old(persons), old(newName));
              e.Some? && confirmed && reply.Err? ==>
                && persons == old(persons) && newName == old(newName) && newNumber == old(newNumber)
                && notification == Some(Notice("Error updating " + e.value.name, Error))
      // absent name: a create is posted
      ensures FindByName(old(persons), old(newName)).None? ==>
                && sent == Some(Create(Draft(old(newName), old(newNumber))))
                && pendingTimers == old(pendingTimers) + 1
      ensures FindByName(old(persons), old(newName)).None? && reply.Ok? ==>
                && persons == old(persons) + [reply.value]
                && newName == "" && newNumber == ""
                && notification == Some(Notice("Added " + reply.value.name, Success))
      ensures FindByName(old(persons), old(newName)).None? && reply.Err? ==>
                && persons == old(persons) && newName == old(newName) && newNumber == old(newNumber)
                && notification == Some(Notice("Error adding " + old(newName), Error))
    {
      var personObject := Draft(newName, newNumber);
      var existingPerson := FindByName(persons, newName);
      sent := None;
      if existingPerson.Some? {
        if confirmed {
          sent := Some(Update(existingPerson.value.id, personObject));
          match reply
          case Ok(updatedPerson) =>
            persons := ReplaceById(persons, updatedPerson.id, updatedPerson);
            newName := "";
            newNumber := "";
            Notify("Updated " + updatedPerson.name, Success);
          case Err(_) =>
            Notify("Error updating " + existingPerson.value.name, Error);
        }
      } else {
        sent := Some(Create(personObject));
        match reply
        case Ok(newPerson) =>
          persons := persons + [newPerson];
          newName := "";
          newNumber := "";
          Notify("Added " + newPerson.name, Success);
        case Err(_) =>
          Notify("Error adding " + personObject.name, Error);
      }
    }

    /** The delete button of one row. If confirmed, a fulfilled DELETE drops
        every entry with that id; a rejected one changes only the slot. */
    method HandleDelete(id: Id, name: string, confirmed: bool, reply: Response<()>) returns (sent: Option<Request>)
      requires Valid()
      modifies this`persons, this`notification, this`pendingTimers
      ensures Valid()
      ensures !confirmed ==> && sent == None && persons == old(persons)
                             && notification == old(notification) && pendingTimers == old(pendingTimers)
      ensures confirmed ==> sent == Some(Remove(id)) && pendingTimers == old(pendingTimers) + 1
      ensures confirmed && reply.Ok? ==> && persons == RemoveById(old(persons), id)
                                         && notification == Some(Notice("Deleted " + name, Success))
      ensures confirmed && reply.Err? ==> && persons == old(persons)
                                          && notification == Some(Notice("Error deleting " + name, Error))
    {
      sent := None;
      if confirmed {
        sent := Some(Remove(id));
        if reply.Ok? {
          persons := RemoveById(persons, id);
          Notify("Deleted " + name, Success);
        } else {
          Notify("Error deleting " + name, Error);
        }
      }
    }

    /** The list handed to `Persons`. */
    function FilteredPersons(): (r: seq<Person>)
      reads this
      ensures forall p :: p in r <==> p in persons && Text.Matches(p.name, filter)
      ensures Seqs.IsSubsequence(r, persons)
    {
      FilterByName(persons, filter)
    }
  }

  /** From any state, a timer scheduled for an earlier notification empties
      the slot even though a later notification has replaced it in the
      meantime; the later notification's own timer is still pending. */
  method EarlierTimerClearsLaterNotice(app: App, first: Notice, second: Notice)
    requires app.Valid()
    modifies app
    ensures app.Valid()
    ensures app.notification == None && app.pendingTimers == old(app.pendingTimers) + 1
  {
    app.Notify(first.message, first.kind);
    app.Notify(second.message, second.kind);
    assert app.notification == Some(second);
    app.Expire();
  }
}
