/** The phonebook whose update sends the whole existing record with the new
    number, replaces by the existing id, keeps the inputs after an update, and
    renders the slot through its own `Notification` component. */
module Exercise216 {
  import opened Outcomes
  import opened Phonebook

  /** A prop as the component receives it: `notification?.message` is
      `undefined`, not `null`, when the slot is empty. */
  datatype Prop = Undefined | Null | Str(text: string)

  /** What `Notification` renders: nothing, or a `div` with a CSS class. */
  datatype Rendered = Nothing | Banner(cssClass: string, content: Prop)

  /** `notification?.message` */
  function MessageProp(slot: Option<Notice>): (m: Prop)
    ensures m == Undefined <==> slot.None?
    ensures slot.Some? ==> m == Str(slot.value.message)
  {
    if slot.None? then Undefined else Str(slot.value.message)
  }

  /** `notification?.type` */
  function TypeProp(slot: Option<Notice>): (t: Prop)
    ensures t == Undefined <==> slot.None?
    ensures slot.Some? ==> t == Str(KindName(slot.value.kind))
  {
    if slot.None? then Undefined else Str(KindName(slot.value.kind))
  }

  /** `type === 'success' ? 'success' : 'error'`. */
  function CssClass(type_: Prop): (c: string)
    ensures c == "success" <==> type_ == Str("success")
    ensures c != "success" ==> c == "error"
  {
    if type_ == Str("success") then "success" else "error"
  }

  /** `Notification` as written: it renders nothing only for `message === null`. */
  function RenderAsWritten(message: Prop, type_: Prop): (v: Rendered)
    ensures v.Nothing? <==> message == Null
    ensures v.Banner? ==> v.content == message && (v.cssClass == "success" <==> type_ == Str("success"))
  {
    if message == Null then Nothing else Banner(CssClass(type_), message)
  }

  /** As the App uses it, the component never renders nothing: `MessageProp`
      is never `null`. */
  lemma AsWrittenAlwaysRendersBanner(slot: Option<Notice>)
    ensures RenderAsWritten(MessageProp(slot), TypeProp(slot)).Banner?
  {
  }

  /** The input that shows it: once the slot is empty (at start and after
      every timer) an empty `error` div is rendered. */
  lemma EmptySlotRendersEmptyErrorBox()
    ensures RenderAsWritten(MessageProp(None), TypeProp(None)) == Banner("error", Undefined)
  {
  }

  /** `Notification` with the evidently intended test `message == null`
      (loose equality, which also holds of `undefined`). */
  function Render(message: Prop, type_: Prop): (v: Rendered)
    ensures v.Nothing? <==> message == Null || message == Undefined
    ensures v.Banner? ==> v.content == message && (v.cssClass == "success" <==> type_ == Str("success"))
  {
    if message == Null || message == Undefined then Nothing else Banner(CssClass(type_), message)
  }

  /** With the corrected test the App shows a banner exactly while the slot
      is full, styled by the kind of the notice it holds. */
  lemma RenderShowsExactlyTheSlot(slot: Option<Notice>)
    ensures Render(MessageProp(slot), TypeProp(slot)).Nothing? <==> slot.None?
    ensures slot.Some? ==> Render(MessageProp(slot), TypeProp(slot)) ==
                           Banner(KindName(slot.value.kind), Str(slot.value.message))
  {
  }

  class App {
    var persons: seq<Person>
    var newName: string
    var newNumber: string
    var filter: string
    var notification: Option<Notice>
    /** The number of `setTimeout` callbacks scheduled and not yet run. */
    ghost var pendingTimers: nat

    /** A filled slot always has a timer pending that will empty it. */
    ghost predicate Valid()
      reads this
    {
      notification.Some? ==> pendingTimers > 0
    }

    constructor ()
      ensures persons == [] && newName == "" && newNumber == "" && filter == ""
      ensures Valid()
      ensures notification == None && pendingTimers == 0
    {
      persons, newName, newNumber, filter := [], "", "", "";
      notification := None;
      pendingTimers := 0;
    }

    /** The mount effect; a rejected GET is not handled. */
    method LoadPersons(reply: Response<seq<Person>>)
      requires Valid()
      modifies this`persons
      ensures Valid()
      ensures reply.Ok? ==> persons == reply.value
      ensures reply.Err? ==> persons == old(persons)
    {
      if reply.Ok? {
        persons := reply.value;
      }
    }

    method HandleNameChange(value: string)
      requires Valid()
      modifies this`newName
      ensures Valid()
      ensures newName == value
    {
      newName := value;
    }

    method HandleNumberChange(value: string)
      requires Valid()
      modifies this`newNumber
      ensures Valid()
      ensures newNumber == value
    {
      newNumber := value;
    }

    method HandleFilterChange(value: string)
      requires Valid()
      modifies this`filter
      ensures Valid()
      ensures filter == value
    {
      filter := value;
    }

    /** Fills the slot with `{message, type}` and schedules a timer that
        empties it. */
    method ShowNotification(message: string, kind: Kind)
      requires Valid()
      modifies this`notification, this`pendingTimers
      ensures Valid()
      ensures notification == Some(Notice(message, kind))
      ensures pendingTimers == old(pendingTimers) + 1
    {
      notification := Some(Notice(message, kind));
      pendingTimers := pendingTimers + 1;
    }

    /** One scheduled timer fires and empties the slot, whichever notification
        it holds by then. */
    method Expire()
      requires pendingTimers > 0
      requires Valid()
      modifies this`notification, this`pendingTimers
      ensures Valid()
      ensures notification == None
      ensures pendingTimers == old(pendingTimers) - 1
    {
      notification := None;
      pendingTimers := pendingTimers - 1;
    }

    /** Submitting the form. A name found by `find` asks for confirmation and,
        if confirmed, sends the existing record with the new number; a
        fulfilled update replaces by the existing id and leaves the inputs as
        they are. An absent name is created and clears the inputs on success. */
    method HandlePersonAddition(confirmed: bool, reply: Response<Person>) returns (sent: Option<Request>)
      requires Valid()
      modifies this`persons, this`newName, this`newNumber, this`notification, this`pendingTimers
      ensures Valid()
      ensures var e := FindByName(old(persons), old(newName));
              e.Some? && !confirmed ==>
                && sent == None
                && persons == old(persons) && newName == old(newName) && newNumber == old(newNumber)
                && notification == old(notification) && pendingTimers == old(pendingTimers)
      ensures var e := FindByName(old(persons), old(newName));
              e.Some? && confirmed ==>
                && sent == Some(Replace(e.value.id, e.value.(number := old(newNumber))))
                && newName == old(newName) && newNumber == old(newNumber)
                && pendingTimers == old(pendingTimers) + 1
      ensures var e := FindByName(old(persons), old(newName));
              e.Some? && confirmed && reply.Ok? ==>
                && persons == ReplaceById(old(persons), e.value.id, reply.value)
                && notification == Some(Notice("Phone number of " + reply.value.name + " has been updated.", Success))
      ensures var e := FindByName(old(persons), old(newName));
              e.Some? && confirmed && reply.Err? ==>
                && persons == old(persons)
                && notification == Some(Notice("Failed to update the phone number of " + e.value.name + ".", Error))
      ensures FindByName(old(persons), old(newName)).None? ==>
                && sent == Some(Create(Draft(old(newName), old(newNumber))))
                && pendingTimers == old(pendingTimers) + 1
      ensures FindByName(old(persons), old(newName)).None? && reply.Ok? ==>
                && persons == old(persons) + [reply.value]
                && newName == "" && newNumber == ""
                && notification == Some(Notice(reply.value.name + " has been added to the phonebook.", Success))
      ensures FindByName(old(persons), old(newName)).None? && reply.Err? ==>
                && persons == old(persons) && newName == old(newName) && newNumber == old(newNumber)
                && notification == Some(Notice("Failed to add " + old(newName) + " to the phonebook.", Error))
    {
      var existingPerson := FindByName(persons, newName);
      sent := None;
      if existingPerson.Some? {
        if confirmed {
          var existing := existingPerson.value;
          var updatedPerson := existing.(number := newNumber);
          sent := Some(Replace(existing.id, updatedPerson));
          match reply
          case Ok(returned) =>
            persons := ReplaceById(persons, existing.id, returned);
            ShowNotification("Phone number of " + returned.name + " has been updated.", Success);
          case Err(_) =>
            ShowNotification("Failed to update the phone number of " + existing.name + ".", Error);
        }
      } else {
        var newPerson := Draft(newName, newNumber);
        sent := Some(Create(newPerson));
        match reply
        case Ok(createdPerson) =>
          persons := persons + [createdPerson];
          newName := "";
          newNumber := "";
          ShowNotification(createdPerson.name + " has been added to the phonebook.", Success);
        case Err(_) =>
          ShowNotification("Failed to add " + newPerson.name + " to the phonebook.", Error);
      }
    }

    /** The delete button of one row. */
    method HandlePersonDeletion(id: Id, name: string, confirmed: bool, reply: Response<()>) returns (sent: Option<Request>)
      requires Valid()
      modifies this`persons, this`notification, this`pendingTimers
      ensures Valid()
      ensures !confirmed ==> && sent == None && persons == old(persons)
                             && notification == old(notification) && pendingTimers == old(pendingTimers)
      ensures confirmed ==> sent == Some(Remove(id)) && pendingTimers == old(pendingTimers) + 1
      ensures confirmed && reply.Ok? ==>
                && persons == RemoveById(old(persons), id)
                && notification == Some(Notice(name + " has been deleted from the phonebook.", Success))
      ensures confirmed && reply.Err? ==>
                && persons == old(persons)
                && notification == Some(Notice("Failed to delete " + name + " from the phonebook.", Error))
    {
      sent := None;
      if confirmed {
        sent := Some(Remove(id));
        if reply.Ok? {
          persons := RemoveById(persons, id);
          ShowNotification(name + " has been deleted from the phonebook.", Success);
        } else {
          ShowNotification("Failed to delete " + name + " from the phonebook.", Error);
        }
      }
    }

    /** The list handed to `Persons`. */
    function FilteredPersons(): (r: seq<Person>)
      reads this
      ensures forall p :: p in r <==> p in persons && Text.Matches(p.name, filter)
      ensures Seqs.IsSubsequence(r, persons)
    {
      FilterByName(persons, filter)
    }

    /** What the notification area shows, with the corrected test. */
    function NotificationView(): (v: Rendered)
      reads this
      ensures v.Nothing? <==> notification.None?
    {
      RenderShowsExactlyTheSlot(notification);
      Render(MessageProp(notification), TypeProp(notification))
    }
  }
}
