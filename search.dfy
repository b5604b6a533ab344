/**
 * The frontend's search box: which persons `handleSearch` keeps for a
 * search term.
 */
module Search {

  import opened Seqs
  import opened Strings
  import opened Api

  /**
   * The filter's test: the term, lower-cased, occurs in the lower-cased name
   * or email, or the term as typed occurs in the id's decimal text.
   */
  predicate Matches(p: Person, term: string)
    ensures term == "" ==> Matches(p, term)
    ensures Matches(p, term) <==>
      || (exists i :: OccursAt(Lower(p.name), Lower(term), i))
      || (exists i :: OccursAt(Lower(p.email), Lower(term), i))
      || (exists i :: OccursAt(DecimalText(p.id), term, i))
  {
    || Contains(Lower(p.name), Lower(term))
    || Contains(Lower(p.email), Lower(term))
    || Contains(DecimalText(p.id), term)
  }

  /** `persons.filter(...)` with that test. */
  function FilterPersons(persons: seq<Person>, term: string): (r: seq<Person>)
    ensures IsSubsequence(r, persons)
    ensures forall i :: 0 <= i < |r| ==> Matches(r[i], term) && r[i] in persons
    ensures forall i :: 0 <= i < |persons| && Matches(persons[i], term) ==> persons[i] in r
    ensures forall p :: multiset(r)[p] == if Matches(p, term) then multiset(persons)[p] else 0
  {
    Filter(persons, (p: Person) => Matches(p, term))
  }

  /** Every person matches the empty term, so filtering by it keeps everyone. */
  lemma EmptyTermKeepsAll(persons: seq<Person>)
    ensures FilterPersons(persons, "") == persons
  {
    forall i | 0 <= i < |persons| ensures Matches(persons[i], "") {
      assert Lower("") == "";
      assert Contains(Lower(persons[i].name), "");
    }
    FilterKeepsAll(persons, (p: Person) => Matches(p, ""));
  }

  /**
   * The list `handleSearch` shows: the whole list for the empty term, the
   * filtered one otherwise. The two branches agree.
   */
  function VisibleList(persons: seq<Person>, term: string): (r: seq<Person>)
    ensures r == FilterPersons(persons, term)
  {
    if term == "" then
      EmptyTermKeepsAll(persons);
      persons
    else
      FilterPersons(persons, term)
  }

  /** Ann, stored with id 1, as the examples below use her. */
  const Ann: Person := Person(1, "Ann", "ann@x.com", 30)

  /** "ANN" finds Ann by name, whatever the case. */
  lemma AnnFoundByName()
    ensures FilterPersons([Ann], "ANN") == [Ann]
  {
    assert Lower("Ann") == "ann" == Lower("ANN");
    assert OccursAt(Lower(Ann.name), Lower("ANN"), 0);
    assert Matches(Ann, "ANN");
  }

  /** "x.com" finds Ann by email. */
  lemma AnnFoundByEmail()
    ensures FilterPersons([Ann], "x.com") == [Ann]
  {
    assert Lower("ann@x.com") == "ann@x.com";
    assert Lower("x.com") == "x.com";
    assert OccursAt(Lower(Ann.email), Lower("x.com"), 4);
    assert Matches(Ann, "x.com");
  }

  /** "2" is in neither Ann's name, email nor id text, so it finds nobody. */
  lemma AnnNotFoundByTwo()
    ensures FilterPersons([Ann], "2") == []
  {
    assert Lower("2") == "2";
    ContainsChar(Lower(Ann.name), '2');
    ContainsChar(Lower(Ann.email), '2');
    assert DecimalText(1) == "1";
    ContainsChar(DecimalText(1), '2');
    assert !Matches(Ann, "2");
  }
}
