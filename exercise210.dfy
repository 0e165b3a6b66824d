/** The phonebook without a backend: ids are assigned locally as
    `persons.length + 1`, a duplicate name is refused, and there is no delete. */
module Exercise210 {
  import opened Phonebook

  /** The four entries `persons` starts with. */
  function InitialPersons(): (r: seq<Person>)
    ensures |r| == 4
  {
    [ Person(1, "Arto Hellas", "040-123456"),
      Person(2, "Ada Lovelace", "39-44-5323523"),
      Person(3, "Dan Abramov", "12-43-234345"),
      Person(4, "Mary Poppendieck", "39-23-6423122") ]
  }

  /** The ids are exactly 1, 2, ..., |persons| in order. */
  predicate SequentialIds(persons: seq<Person>) {
    forall i :: 0 <= i < |persons| ==> persons[i].id == i + 1
  }

  /** No two entries share a name. */
  predicate DistinctNames(persons: seq<Person>) {
    forall i, j :: 0 <= i < j < |persons| ==> persons[i].name != persons[j].name
  }

  /** Sequential ids are pairwise distinct. */
  lemma SequentialIdsAreUnique(persons: seq<Person>)
    requires SequentialIds(persons)
    ensures forall i, j :: 0 <= i < j < |persons| ==> persons[i].id != persons[j].id
  {
  }

  /** The entry `addPerson` appends for an absent name. */
  function NewEntry(persons: seq<Person>, name: string, number: string): (p: Person)
    ensures p.id == |persons| + 1 && p.name == name && p.number == number
    ensures SequentialIds(persons) ==> forall q :: q in persons ==> q.id != p.id
  {
    Person(|persons| + 1, name, number)
  }

  /** Appending the new entry for an absent name keeps both invariants. */
  lemma AppendKeepsInvariants(persons: seq<Person>, name: string, number: string)
    requires SequentialIds(persons) && DistinctNames(persons)
    requires !NameExists(persons, name)
    ensures SequentialIds(persons + [NewEntry(persons, name, number)])
    ensures DistinctNames(persons + [NewEntry(persons, name, number)])
  {
  }

  /** `filteredPersons`: the empty filter short-cuts to `persons` itself. */
  function VisiblePersons(persons: seq<Person>, filterName: string): (r: seq<Person>)
    ensures filterName == "" ==> r == persons
    ensures forall p :: p in r <==> p in persons && Text.Matches(p.name, filterName)
  {
    EmptyQueryShowsAll(persons);
    if filterName != "" then FilterByName(persons, filterName) else persons
  }

  /** The shortcut shows exactly what the plain filter would. */
  lemma ShortcutAgreesWithFilter(persons: seq<Person>, filterName: string)
    ensures VisiblePersons(persons, filterName) == FilterByName(persons, filterName)
  {
    EmptyQueryShowsAll(persons);
  }

  class App {
    var persons: seq<Person>
    var newName: string
    var newNumber: string
    var filterName: string

    /** Ids are 1..|persons| and names are pairwise distinct. */
    ghost predicate Valid()
      reads this
    {
      SequentialIds(persons) && DistinctNames(persons)
    }

    constructor ()
      ensures Valid()
      ensures persons == InitialPersons()
      ensures newName == "" && newNumber == "" && filterName == ""
    {
      persons := InitialPersons();
      newName, newNumber, filterName := "", "", "";
    }

    method HandleNameChange(value: string)
      modifies this`newName
      ensures newName == value
    {
      newName := value;
    }

    method HandleNumberChange(value: string)
      modifies this`newNumber
      ensures newNumber == value
    {
      newNumber := value;
    }

    method HandleFilterChange(value: string)
      modifies this`filterName
      ensures filterName == value
    {
      filterName := value;
    }

    /** Refuses a name already present; otherwise appends it with the next id.
        Both inputs are cleared either way. */
    method AddPerson()
      requires Valid()
      modifies this`persons, this`newName, this`newNumber
      ensures Valid()
      ensures NameExists(old(persons), old(newName)) ==> persons == old(persons)
      ensures !NameExists(old(persons), old(newName)) ==>
                persons == old(persons) + [NewEntry(old(persons), old(newName), old(newNumber))]
      ensures newName == "" && newNumber == ""
    {
      var personExists := NameExists(persons, newName);
      if personExists {
        newName := "";
        newNumber := "";
        return;
      }
      AppendKeepsInvariants(persons, newName, newNumber);
      var personObject := NewEntry(persons, newName, newNumber);
      persons := persons + [personObject];
      newName := "";
      newNumber := "";
    }

    /** The list handed to `Persons`. */
    function FilteredPersons(): (r: seq<Person>)
      reads this
      ensures r == FilterByName(persons, filterName)
    {
      ShortcutAgreesWithFilter(persons, filterName);
      VisiblePersons(persons, filterName)
    }
  }
}
