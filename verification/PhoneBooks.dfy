/** The two phone books: one closes the gap of a deleted entry by shifting, the other moves its last
    entry into the gap. */
module PhoneBooks {
  import opened Options

  const LIMIT: nat := 100

  datatype Person = Person(name: string, secondName: string, tel: string)

  // ---- The books as sequences --------------------------------------------------------------

  function Without<T>(s: seq<T>, i: nat): (r: seq<T>)
    requires i < |s|
    ensures |r| == |s| - 1
  {
    s[..i] + s[i + 1..]
  }

  function MoveLast<T>(s: seq<T>, i: nat): (r: seq<T>)
    requires i < |s|
    ensures |r| == |s| - 1
  {
    s[i := s[|s| - 1]][..|s| - 1]
  }

  function ShiftAdd(s: seq<Person>, p: Person): seq<Person> {
    if |s| < LIMIT then s + [p] else s
  }

  function ShiftDelete(s: seq<Person>, i: int): seq<Person> {
    if 0 <= i < |s| then Without(s, i) else s
  }

  function CompactAdd(s: seq<Person>, p: Person): seq<Person> {
    s + [p]
  }

  function CompactDelete(s: seq<Person>, i: int): seq<Person> {
    if 0 <= i < |s| then MoveLast(s, i) else s
  }

  /** The first entry with the name, which is what a search prints. */
  ghost predicate FirstNamed(s: seq<Person>, name: string, found: Option<Person>) {
    match found
    case None => forall k :: 0 <= k < |s| ==> s[k].name != name
    case Some(p) =>
      exists k :: 0 <= k < |s| && s[k] == p && p.name == name && forall l :: 0 <= l < k ==> s[l].name != name
  }

  /** The search loop, the same in both programs. */
  method Find(phonebook: array<Person>, count: nat, name: string) returns (found: Option<Person>)
    requires count <= phonebook.Length
    ensures FirstNamed(phonebook[..count], name, found)
  {
    for i := 0 to count
      invariant forall k :: 0 <= k < i ==> phonebook[k].name != name
    {
      if phonebook[i].name == name {
        assert phonebook[..count][i] == phonebook[i];
        return Some(phonebook[i]);
      }
    }
    return None;
  }

  // ---- The book with a fixed array -----------------------------------------------------------

  class ShiftBook {
    const phonebook: array<Person>
    var count: nat

    ghost predicate Valid()
      reads this
    {
      count <= phonebook.Length == LIMIT
    }

    ghost function Contents(): seq<Person>
      requires Valid()
      reads this, phonebook
    {
      phonebook[..count]
    }

    constructor ()
      ensures Valid() && fresh(phonebook) && Contents() == []
    {
      phonebook := new Person[LIMIT](_ => Person("", "", ""));
      count := 0;
    }

    method Add(p: Person) returns (added: bool)
      requires Valid()
      modifies this, phonebook
      ensures Valid() && Contents() == ShiftAdd(old(Contents()), p) && added == (old(count) < 100)
      ensures Contents() == old(Contents()) + if added then [p] else []
    {
      added := count < LIMIT;
      if added {
        phonebook[count] := p;
        count := count + 1;
      }
    }

    method Delete(index: int) returns (deleted: bool)
      requires Valid()
      modifies this, phonebook
      ensures Valid() && Contents() == ShiftDelete(old(Contents()), index) && deleted == (0 <= index < old(count))
      ensures Contents() ==
                if deleted then old(Contents())[..index] + old(Contents())[index + 1..] else old(Contents())
    {
      deleted := index < count && index >= 0;
      if deleted {
        ghost var before := Contents();
        for i := index to count - 1
          invariant count == old(count)
          invariant forall k :: 0 <= k < i ==> phonebook[k] == old(phonebook[if k < index then k else k + 1])
          invariant forall k :: i <= k < LIMIT ==> phonebook[k] == old(phonebook[k])
        {
          phonebook[i] := phonebook[i + 1];
        }
        count := count - 1;
        assert forall k :: 0 <= k < count ==> phonebook[k] == Without(before, index)[k];
        assert Contents() == Without(before, index);
      }
    }

    method Search(name: string) returns (found: Option<Person>)
      requires Valid()
      ensures FirstNamed(Contents(), name, found)
      ensures found.None? <==> forall k :: 0 <= k < count ==> Contents()[k].name != name
      ensures found.Some? ==> exists k :: 0 <= k < count && Contents()[k] == found.value && found.value.name == name &&
                                          forall l :: 0 <= l < k ==> Contents()[l].name != name
    {
      found := Find(phonebook, count, name);
    }
  }

  // ---- The book that is reallocated at every change ----------------------------------------------

  class CompactBook {
    var phonebook: array<Person>
    var count: nat

    ghost predicate Valid()
      reads this
    {
      count == phonebook.Length
    }

    ghost function Contents(): seq<Person>
      requires Valid()
      reads this, phonebook
    {
      phonebook[..count]
    }

    constructor ()
      ensures Valid() && fresh(phonebook) && Contents() == []
    {
      phonebook := new Person[0];
      count := 0;
    }

    /** `realloc`: a block of the new size that keeps the entries that fit. */
    method Resize(size: nat)
      modifies `phonebook
      ensures fresh(phonebook) && phonebook.Length == size
      ensures forall k :: 0 <= k < size && k < old(phonebook).Length ==> phonebook[k] == old(phonebook[k])
    {
      var before := phonebook;
      phonebook := new Person[size]((i: nat) reads before =>
        if i < before.Length then before[i] else Person("", "", ""));
    }

    method Add(p: Person)
      requires Valid()
      modifies this
      ensures Valid() && fresh(phonebook) && Contents() == CompactAdd(old(Contents()), p) == old(Contents()) + [p]
    {
      Resize(count + 1);
      phonebook[count] := p;
      count := count + 1;
    }

    method Delete(index: int) returns (deleted: bool)
      requires Valid()
      modifies this, phonebook
      ensures Valid() && (phonebook == old(phonebook) || fresh(phonebook))
      ensures Contents() == CompactDelete(old(Contents()), index) && deleted == (0 <= index < old(count))
      ensures if !deleted then Contents() == old(Contents())
              else
                && |Contents()| == old(count) - 1
                && forall k :: 0 <= k < |Contents()| ==>
                     Contents()[k] == old(Contents())[if k == index then old(count) - 1 else k]
    {
      deleted := index < count && index >= 0;
      if deleted {
        phonebook[index] := phonebook[count - 1];
        count := count - 1;
        Resize(count);
      }
    }

    method Search(name: string) returns (found: Option<Person>)
      requires Valid()
      ensures FirstNamed(Contents(), name, found)
      ensures found.None? <==> forall k :: 0 <= k < count ==> Contents()[k].name != name
      ensures found.Some? ==> exists k :: 0 <= k < count && Contents()[k] == found.value && found.value.name == name &&
                                          forall l :: 0 <= l < k ==> Contents()[l].name != name
    {
      found := Find(phonebook, count, name);
    }
  }

  // ---- The simulation --------------------------------------------------------------------------

  /** at[i] is the position in the compact book of the entry at position i of the shift book. */
  ghost predicate Matched(a: seq<Person>, b: seq<Person>, at: seq<nat>) {
    && |a| == |b| == |at|
    && (forall i :: 0 <= i < |at| ==> at[i] < |b| && a[i] == b[at[i]])
    && (forall i, j :: 0 <= i < j < |at| ==> at[i] != at[j])
  }

  datatype Op = Add(p: Person) | Delete(i: int)

  /** The positions after a deletion: entry i is gone, and the entry at the last position of the compact
      book has moved to where entry i was. */
  function Relocate(at: seq<nat>, i: nat): (r: seq<nat>)
    requires i < |at|
    ensures |r| == |at| - 1
  {
    seq(|at| - 1, k requires 0 <= k < |at| - 1 =>
      var place := at[if k < i then k else k + 1];
      if place == |at| - 1 then at[i] else place)
  }

  datatype Books = Books(shift: seq<Person>, compact: seq<Person>, at: seq<nat>)

  /** The same operation on both books: a deletion names the corresponding entries, or, out of range,
      the same index. */
  function Step(s: Books, op: Op): Books {
    match op
    case Add(p) => Books(ShiftAdd(s.shift, p), CompactAdd(s.compact, p), s.at + [|s.at|])
    case Delete(i) =>
      if 0 <= i < |s.at| then Books(ShiftDelete(s.shift, i), CompactDelete(s.compact, s.at[i]), Relocate(s.at, i))
      else Books(ShiftDelete(s.shift, i), CompactDelete(s.compact, i), s.at)
  }

  /** The fixed array has room for the operation. */
  predicate Fits(s: Books, op: Op) {
    op.Add? ==> |s.shift| < 100
  }

  /** An operation keeps the books matched if and only if it does not overflow the fixed array. */
  lemma StepMatchedIff(s: Books, op: Op)
    requires Matched(s.shift, s.compact, s.at)
    ensures var t := Step(s, op); Matched(t.shift, t.compact, t.at) <==> Fits(s, op)
  {
    if op.Delete? && 0 <= op.i < |s.at| {
      DeleteMatched(s.shift, s.compact, s.at, op.i);
    }
  }

  lemma DeleteMatched(a: seq<Person>, b: seq<Person>, at: seq<nat>, i: nat)
    requires Matched(a, b, at) && i < |a|
    ensures Matched(Without(a, i), MoveLast(b, at[i]), Relocate(at, i))
  {
    var at' := Relocate(at, i);
    forall k | 0 <= k < |at'|
      ensures at'[k] < |b| - 1 && Without(a, i)[k] == MoveLast(b, at[i])[at'[k]]
    {
      var from := if k < i then k else k + 1;
      assert at[from] != at[i];
    }
  }

  /** Both books after a history of operations on empty books. */
  function Played(ops: seq<Op>): Books
    decreases |ops|
  {
    if ops == [] then Books([], [], []) else Step(Played(ops[..|ops| - 1]), ops[|ops| - 1])
  }

  /** The history never overflows the fixed array. */
  ghost predicate Within(ops: seq<Op>)
    decreases |ops|
  {
    ops != [] ==> Within(ops[..|ops| - 1]) && Fits(Played(ops[..|ops| - 1]), ops[|ops| - 1])
  }

  ghost predicate AlwaysMatched(ops: seq<Op>)
    decreases |ops|
  {
    && (var s := Played(ops); Matched(s.shift, s.compact, s.at))
    && (ops != [] ==> AlwaysMatched(ops[..|ops| - 1]))
  }

  /** The books correspond entry by entry all the way if and only if the history stays within the limit. */
  lemma {:induction false} AlwaysMatchedIff(ops: seq<Op>)
    ensures AlwaysMatched(ops) <==> Within(ops)
    decreases |ops|
  {
    if ops == [] {
    } else {
      var front := ops[..|ops| - 1];
      AlwaysMatchedIff(front);
      if AlwaysMatched(front) {
        StepMatchedIff(Played(front), ops[|ops| - 1]);
      }
    }
  }

  /** After every such history the two books hold the same records, however often, and a name is found
      in one exactly when it is found in the other. */
  lemma SameRecords(ops: seq<Op>)
    requires Within(ops)
    ensures var s := Played(ops); multiset(s.shift) == multiset(s.compact)
    ensures forall name, x, y :: FirstNamed(Played(ops).shift, name, x) && FirstNamed(Played(ops).compact, name, y) ==>
              (x.Some? <==> y.Some?)
  {
    var s := Played(ops);
    AlwaysMatchedIff(ops);
    SameMultiset(s.shift, s.compact, s.at);
    SameNames(s.shift, s.compact);
  }

  lemma SameNames(a: seq<Person>, b: seq<Person>)
    requires multiset(a) == multiset(b)
    ensures forall name, x, y :: FirstNamed(a, name, x) && FirstNamed(b, name, y) ==> (x.Some? <==> y.Some?)
  {
    forall name, x, y | FirstNamed(a, name, x) && FirstNamed(b, name, y)
      ensures x.Some? <==> y.Some?
    {
      NamedElsewhere(a, b, name, x, y);
      NamedElsewhere(b, a, name, y, x);
    }
  }

  lemma NamedElsewhere(a: seq<Person>, b: seq<Person>, name: string, x: Option<Person>, y: Option<Person>)
    requires multiset(a) == multiset(b) && FirstNamed(a, name, x) && FirstNamed(b, name, y)
    ensures x.Some? ==> y.Some?
  {
    if x.Some? {
      assert x.value in multiset(a);
      assert x.value in b;
    }
  }

  lemma {:induction false} SameMultiset(a: seq<Person>, b: seq<Person>, at: seq<nat>)
    requires Matched(a, b, at)
    ensures multiset(a) == multiset(b)
    decreases |a|
  {
    if a == [] {
    } else {
      var last := |a| - 1;
      DeleteMatched(a, b, at, last);
      SameMultiset(Without(a, last), MoveLast(b, at[last]), Relocate(at, last));
      WithoutMultiset(a, last);
      MoveLastMultiset(b, at[last]);
    }
  }

  lemma WithoutMultiset(s: seq<Person>, i: nat)
    requires i < |s|
    ensures multiset(s) == multiset(Without(s, i)) + multiset{s[i]}
  {
    assert s == s[..i] + [s[i]] + s[i + 1..];
  }

  lemma MoveLastMultiset(s: seq<Person>, i: nat)
    requires i < |s|
    ensures multiset(s) == multiset(MoveLast(s, i)) + multiset{s[i]}
  {
    var last := |s| - 1;
    assert s == s[..last] + [s[last]];
    if i < last {
      assert s[..last] == s[..i] + [s[i]] + s[i + 1..last];
      assert MoveLast(s, i) == s[..i] + [s[last]] + s[i + 1..last];
    } else {
      assert MoveLast(s, i) == s[..last];
    }
  }

  // ---- Deleting by the displayed number ------------------------------------------------------------

  /** The books number their entries from 1 on the screen. The menu of the compact book subtracts one
      before it deletes, so exactly the displayed record goes. */
  lemma CompactDeletesDisplayed(s: seq<Person>, number: nat)
    requires 1 <= number <= |s|
    ensures multiset(s) == multiset(CompactDelete(s, number - 1)) + multiset{s[number - 1]}
  {
    MoveLastMultiset(s, number - 1);
  }

  /** The menu of the shift book does not subtract: the displayed record goes only if the next one is
      its equal, and the last record cannot be deleted by its number at all. */
  lemma ShiftDeletesDisplayedIff(s: seq<Person>, number: nat)
    requires 1 <= number <= |s|
    ensures multiset(s) == multiset(ShiftDelete(s, number)) + multiset{s[number - 1]}
       <==> number < |s| && s[number] == s[number - 1]
  {
    if number < |s| {
      WithoutMultiset(s, number);
      var rest := multiset(Without(s, number));
      if rest + multiset{s[number]} == rest + multiset{s[number - 1]} {
        assert (rest + multiset{s[number]})[s[number]] == rest[s[number]] + 1;
        assert s[number] == s[number - 1];
      }
    } else {
      assert |multiset(s)| != |multiset(s) + multiset{s[number - 1]}|;
    }
  }

  /** It happens: in a book with two different records the number 1, under which the first one is shown,
      deletes the second one, and the number 2 deletes nothing. */
  lemma ShiftDeletesWrongRecord(first: Person, second: Person)
    requires first != second
    ensures ShiftDelete([first, second], 1) == [first] && ShiftDelete([first, second], 2) == [first, second]
    ensures multiset([first, second]) != multiset(ShiftDelete([first, second], 1)) + multiset{first}
  {
    ShiftDeletesDisplayedIff([first, second], 1);
  }
}
