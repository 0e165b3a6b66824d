/** The phonebook entities and the list operations every phonebook App shares:
    the `find`/`some` name checks, replace-by-id (`map`), remove-by-id and the
    name filter (`filter`). */
module Phonebook {
  import opened Outcomes
  import opened Text
  import opened Seqs

  /** A server-assigned identifier (json-server numbers them). */
  type Id = int

  /** One contact as the server returns it. */
  datatype Person = Person(id: Id, name: string, number: string)

  /** The `{name, number}` object posted before the server assigns an id. */
  datatype Draft = Draft(name: string, number: string)

  /** The call a handler issues to the persons service. */
  datatype Request =
    | Create(draft: Draft)               // POST /persons
    | Update(id: Id, draft: Draft)       // PUT /persons/:id with {name, number}
    | Replace(id: Id, person: Person)    // PUT /persons/:id with the whole record
    | Remove(id: Id)                     // DELETE /persons/:id

  /** The `type` of a notification. */
  datatype Kind = Success | Error

  /** The `{message, type}` object held in the notification slot. */
  datatype Notice = Notice(message: string, kind: Kind)

  /** The string the source uses for a kind. */
  function KindName(k: Kind): (s: string)
    ensures s == "success" <==> k == Success
    ensures s == "error" <==> k == Error
  {
    match k
    case Success => "success"
    case Error => "error"
  }

  /** `persons.some(person => person.name === name)`. */
  predicate NameExists(persons: seq<Person>, name: string) {
    exists i :: 0 <= i < |persons| && persons[i].name == name
  }

  /** `persons.find(person => person.name === name)`: the first person whose
      name equals `name` exactly (case-sensitively), or none. */
  function FindByName(persons: seq<Person>, name: string): (r: Option<Person>)
    ensures r.None? <==> !NameExists(persons, name)
    ensures r.Some? ==> exists k :: 0 <= k < |persons| && persons[k] == r.value &&
                                   forall j :: 0 <= j < k ==> persons[j].name != name
    ensures r.Some? ==> r.value.name == name
  {
    if persons == [] then None
    else if persons[0].name == name then Some(persons[0])
    else
      var r := FindByName(persons[1..], name);
      assert r.Some? ==> exists k :: 0 <= k < |persons| && persons[k] == r.value &&
                                   forall j :: 0 <= j < k ==> persons[j].name != name by {
        if r.Some? {
          var k :| 0 <= k < |persons| - 1 && persons[1..][k] == r.value &&
                   forall j :: 0 <= j < k ==> persons[1..][j].name != name;
          assert persons[k + 1] == r.value;
          assert forall j :: 0 <= j < k + 1 ==> persons[j].name != name by {
            forall j | 0 <= j < k + 1 ensures persons[j].name != name {
              if j > 0 { assert persons[j] == persons[1..][j - 1]; }
            }
          }
        }
      }
      assert NameExists(persons[1..], name) ==> NameExists(persons, name) by {
        if NameExists(persons[1..], name) {
          var i :| 0 <= i < |persons| - 1 && persons[1..][i].name == name;
          assert persons[i + 1].name == name;
        }
      }
      r
  }

  /** `persons.map(person => person.id === id ? p : person)`: every entry
      whose id is `id` becomes `p`; every other entry stays where it was. */
  function ReplaceById(persons: seq<Person>, id: Id, p: Person): (r: seq<Person>)
    ensures |r| == |persons|
    ensures forall i :: 0 <= i < |persons| && persons[i].id == id ==> r[i] == p
    ensures forall i :: 0 <= i < |persons| && persons[i].id != id ==> r[i] == persons[i]
  {
    if persons == [] then []
    else [if persons[0].id == id then p else persons[0]] + ReplaceById(persons[1..], id, p)
  }

  /** The keep test of `persons.filter(person => person.id !== id)`. */
  function IdIsNot(id: Id): Person -> bool {
    (p: Person) => p.id != id
  }

  /** `persons.filter(person => person.id !== id)`. */
  function RemoveById(persons: seq<Person>, id: Id): (r: seq<Person>)
    ensures forall p :: p in r <==> p in persons && p.id != id
    ensures IsSubsequence(r, persons)
  {
    FilterMembership(persons, IdIsNot(id));
    FilterIsSubsequence(persons, IdIsNot(id));
    Filter(persons, IdIsNot(id))
  }

  /** The keep test of the name filter. */
  function NameMatches(query: string): Person -> bool {
    (p: Person) => Matches(p.name, query)
  }

  /** `persons.filter(person => person.name.toLowerCase().includes(query.toLowerCase()))`. */
  function FilterByName(persons: seq<Person>, query: string): (r: seq<Person>)
    ensures forall p :: p in r <==> p in persons && Matches(p.name, query)
    ensures IsSubsequence(r, persons)
  {
    FilterMembership(persons, NameMatches(query));
    FilterIsSubsequence(persons, NameMatches(query));
    Filter(persons, NameMatches(query))
  }

  /** Replacing by an id that no entry has leaves the list as it was: an
      update answered with an unknown id changes nothing when the list is
      matched on the returned id. */
  lemma ReplaceByUnknownIdChangesNothing(persons: seq<Person>, p: Person)
    requires forall i :: 0 <= i < |persons| ==> persons[i].id != p.id
    ensures ReplaceById(persons, p.id, p) == persons
  {
  }

  /** Replacing by the id of the entry `find` returned always stores the
      answer, whatever id the answer carries. */
  lemma ReplaceByFoundIdStoresReply(persons: seq<Person>, name: string, p: Person)
    requires FindByName(persons, name).Some?
    ensures p in ReplaceById(persons, FindByName(persons, name).value.id, p)
  {
    var e := FindByName(persons, name).value;
    var k :| 0 <= k < |persons| && persons[k] == e &&
             forall j :: 0 <= j < k ==> persons[j].name != name;
    assert ReplaceById(persons, e.id, p)[k] == p;
  }

  /** `some` and `find` agree on whether a name is present. */
  lemma SomeAgreesWithFind(persons: seq<Person>, name: string)
    ensures NameExists(persons, name) <==> FindByName(persons, name).Some?
  {
  }

  /** The name filter keeps each entry as many times as it occurs, when it matches. */
  lemma FilterByNameCounts(persons: seq<Person>, query: string)
    ensures forall p :: multiset(FilterByName(persons, query))[p] ==
                        if Matches(p.name, query) then multiset(persons)[p] else 0
  {
    FilterCounts(persons, NameMatches(query));
  }

  /** The empty query shows every entry, in order. */
  lemma EmptyQueryShowsAll(persons: seq<Person>)
    ensures FilterByName(persons, "") == persons
  {
    forall i | 0 <= i < |persons| ensures NameMatches("")(persons[i]) {
      MatchesIgnoresCase(persons[i].name, "");
    }
    FilterKeepsAll(persons, NameMatches(""));
  }

  /** Appending an entry shows it at the end of the visible list exactly when
      it matches the query; the entries shown before stay as they were. */
  lemma FilterAfterAppend(persons: seq<Person>, p: Person, query: string)
    ensures FilterByName(persons + [p], query) ==
            FilterByName(persons, query) + (if Matches(p.name, query) then [p] else [])
  {
    FilterAppend(persons, [p], NameMatches(query));
    assert [p][1..] == [];
  }

  /** Deleting and then filtering shows the same list as filtering and then
      deleting. */
  lemma FilterAfterRemove(persons: seq<Person>, id: Id, query: string)
    ensures FilterByName(RemoveById(persons, id), query) == RemoveById(FilterByName(persons, query), id)
  {
    FilterCommutes(persons, IdIsNot(id), NameMatches(query));
  }

  /** Removing by id removes exactly the entries with that id and keeps the
      count of every other entry. */
  lemma RemoveByIdCounts(persons: seq<Person>, id: Id)
    ensures forall p :: multiset(RemoveById(persons, id))[p] ==
                        if p.id != id then multiset(persons)[p] else 0
  {
    FilterCounts(persons, IdIsNot(id));
  }
}
