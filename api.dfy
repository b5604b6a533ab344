/**
 * The backend's JAX-RS resource for `/persons`: an in-memory list of
 * persons and an id counter, shared by all requests, with one method per
 * HTTP endpoint.
 */
module Api {

  import opened Wrappers
  import opened Seqs

  /** A person record as the resource stores and returns it. */
  datatype Person = Person(id: int, name: string, email: string, age: int)

  /** The HTTP responses the resource builds. */
  datatype Response =
    | Created(entity: Person)   // 201 with the stored person
    | Ok(entity: Person)        // 200 with the updated person
    | NotFound                  // 404, no body
    | NoContent                 // 204, no body

  ghost predicate IdsDistinct(s: seq<Person>) {
    forall i, j :: 0 <= i < j < |s| ==> s[i].id != s[j].id
  }

  predicate HasId(s: seq<Person>, id: int) {
    exists i :: 0 <= i < |s| && s[i].id == id
  }

  /** The index of the first person carrying `id`, the one a front-to-back scan stops at. */
  function FindIndex(s: seq<Person>, id: int): (r: Option<nat>)
    ensures r.Some? ==> r.value < |s| && s[r.value].id == id
    ensures r.Some? ==> forall k :: 0 <= k < r.value ==> s[k].id != id
    ensures r.None? <==> !HasId(s, id)
  {
    if s == [] then None
    else if s[0].id == id then Some(0)
    else match FindIndex(s[1..], id)
      case None => None
      case Some(k) => Some(k + 1)
  }

  /** `person` with name, email and age taken from `p`; its id is kept. */
  function Overwrite(person: Person, p: Person): (r: Person)
    ensures r.id == person.id
    ensures r.name == p.name && r.email == p.email && r.age == p.age
  {
    person.(name := p.name, email := p.email, age := p.age)
  }

  /** What `removeIf(p -> p.getId() == id)` leaves. */
  function WithoutId(s: seq<Person>, id: int): (r: seq<Person>)
    ensures IsSubsequence(r, s)
    ensures forall i :: 0 <= i < |r| ==> r[i].id != id && r[i] in s
    ensures forall i :: 0 <= i < |s| && s[i].id != id ==> s[i] in r
    ensures forall q :: multiset(r)[q] == if q.id != id then multiset(s)[q] else 0
  {
    Filter(s, (p: Person) => p.id != id)
  }

  /** Deleting an id that is not there leaves the list as it was. */
  lemma DeleteAbsentIdKeepsList(s: seq<Person>, id: int)
    requires !HasId(s, id)
    ensures WithoutId(s, id) == s
  {
    FilterKeepsAll(s, (p: Person) => p.id != id);
  }

  /** One step of the scan `removeIf` makes over the list. */
  lemma WithoutIdStep(s: seq<Person>, id: int)
    requires s != []
    ensures WithoutId(s, id) ==
      if s[0].id != id then [s[0]] + WithoutId(s[1..], id) else WithoutId(s[1..], id)
  {
  }

  /** With distinct ids, the head's id is not in the tail. */
  lemma HeadIdNotInTail(s: seq<Person>)
    requires s != [] && IdsDistinct(s)
    ensures !HasId(s[1..], s[0].id)
  {
    forall k | 0 <= k < |s[1..]| ensures s[1..][k].id != s[0].id {
      assert s[k + 1].id != s[0].id;
    }
  }

  /** An id the head does not carry is in the tail, whose ids stay distinct. */
  lemma TailKeepsOtherIds(s: seq<Person>, id: int)
    requires IdsDistinct(s) && HasId(s, id) && s[0].id != id
    ensures IdsDistinct(s[1..]) && HasId(s[1..], id)
  {
    var k :| 0 <= k < |s| && s[k].id == id;
    assert s[1..][k - 1].id == id;
  }

  /** An id absent from a list stays absent after deleting. */
  lemma WithoutIdKeepsAbsence(s: seq<Person>, x: int, id: int)
    requires !HasId(s, x)
    ensures !HasId(WithoutId(s, id), x)
  {
    var r := WithoutId(s, id);
    forall j | 0 <= j < |r| ensures r[j].id != x {
      assert r[j] in s;
    }
  }

  /** Putting a person with a new id in front keeps ids distinct. */
  lemma ConsKeepsIdsDistinct(p: Person, s: seq<Person>)
    requires IdsDistinct(s) && !HasId(s, p.id)
    ensures IdsDistinct([p] + s)
  {
    forall i, j | 0 <= i < j < |[p] + s| ensures ([p] + s)[i].id != ([p] + s)[j].id {
      if i == 0 {
        assert ([p] + s)[j] == s[j - 1];
      } else {
        assert ([p] + s)[i] == s[i - 1] && ([p] + s)[j] == s[j - 1];
      }
    }
  }

  /** Removing entries keeps ids distinct. */
  lemma {:induction false} WithoutIdKeepsIdsDistinct(s: seq<Person>, id: int)
    requires IdsDistinct(s)
    ensures IdsDistinct(WithoutId(s, id))
  {
    if s != [] {
      assert IdsDistinct(s[1..]);
      WithoutIdKeepsIdsDistinct(s[1..], id);
      WithoutIdStep(s, id);
      if s[0].id != id {
        HeadIdNotInTail(s);
        WithoutIdKeepsAbsence(s[1..], s[0].id, id);
        ConsKeepsIdsDistinct(s[0], WithoutId(s[1..], id));
      }
    }
  }

  /** With distinct ids, deleting a present id removes exactly one entry. */
  lemma {:induction false} DeletePresentIdRemovesOne(s: seq<Person>, id: int)
    requires IdsDistinct(s)
    requires HasId(s, id)
    ensures |WithoutId(s, id)| == |s| - 1
  {
    WithoutIdStep(s, id);
    if s[0].id == id {
      HeadIdNotInTail(s);
      DeleteAbsentIdKeepsList(s[1..], id);
    } else {
      TailKeepsOtherIds(s, id);
      DeletePresentIdRemovesOne(s[1..], id);
    }
  }

  /**
   * The resource's state: `persons` and `idCounter` are static fields in the
   * source, so one object stands for all requests. `issued` records every
   * id the counter has handed out.
   */
  class PersonResource {
    var persons: seq<Person>
    var idCounter: int
    ghost var issued: set<int>

    /** Ids are distinct, each one was issued, and the issued ids are exactly those below the counter. */
    ghost predicate Valid()
      reads this
    {
      && 1 <= idCounter
      && (forall n :: n in issued <==> 1 <= n < idCounter)
      && (forall i :: 0 <= i < |persons| ==> persons[i].id in issued)
      && IdsDistinct(persons)
    }

    constructor ()
      ensures Valid()
      ensures persons == [] && idCounter == 1 && issued == {}
    {
      persons := [];
      idCounter := 1;
      issued := {};
    }

    /** GET: the current list; nothing changes. */
    method GetAll() returns (r: seq<Person>)
      ensures r == persons
    {
      r := persons;
    }

    /** POST: stores `p` under the next id, whatever id the client sent. */
    method AddPerson(p: Person) returns (r: Response)
      requires Valid()
      modifies this
      ensures Valid()
      ensures r.Created? && r.entity == p.(id := old(idCounter))
      ensures persons == old(persons) + [r.entity]
      ensures idCounter == old(idCounter) + 1
      ensures r.entity.id !in old(issued) && issued == old(issued) + {r.entity.id}
    {
      var stored := p.(id := idCounter);
      idCounter := idCounter + 1;
      persons := persons + [stored];
      issued := issued + {stored.id};
      r := Created(stored);
    }

    /** PUT /{id}: overwrites name, email and age of the first person with that id. */
    method UpdatePerson(id: int, p: Person) returns (r: Response)
      requires Valid()
      modifies this
      ensures Valid()
      ensures idCounter == old(idCounter) && issued == old(issued)
      ensures |persons| == |old(persons)|
      ensures match FindIndex(old(persons), id)
        case None =>
          r == NotFound && persons == old(persons)
        case Some(i) =>
          && persons == old(persons)[i := Overwrite(old(persons)[i], p)]
          && r == Ok(persons[i])
    {
      var i := 0;
      while i < |persons|
        invariant 0 <= i <= |persons|
        invariant forall k :: 0 <= k < i ==> persons[k].id != id
      {
        if persons[i].id == id {
          persons := persons[i := Overwrite(persons[i], p)];
          return Ok(persons[i]);
        }
        i := i + 1;
      }
      return NotFound;
    }

    /** DELETE /{id}: removes every person with that id; answers 204 either way. */
    method DeletePerson(id: int) returns (r: Response)
      requires Valid()
      modifies this
      ensures Valid()
      ensures persons == WithoutId(old(persons), id)
      ensures idCounter == old(idCounter) && issued == old(issued)
      ensures r == NoContent
    {
      WithoutIdKeepsIdsDistinct(persons, id);
      persons := WithoutId(persons, id);
      r := NoContent;
    }
  }
}
