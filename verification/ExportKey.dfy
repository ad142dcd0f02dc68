/**
 The idempotency key of an export. The source hashes the sorted list of "item:snapshot" parts;
 with an injective hash the sorted list itself carries the same information.
 */
module ExportKey {
  import opened Common

  datatype Part = Part(item: nat, snapshot: Option<nat>)

  predicate Before(a: Part, b: Part) {
    || a.item < b.item
    || (a.item == b.item &&
        match (a.snapshot, b.snapshot)
        case (None, _) => true
        case (Some(_), None) => false
        case (Some(x), Some(y)) => x <= y)
  }

  function Insert(p: Part, s: seq<Part>): seq<Part> {
    if s == [] || Before(p, s[0]) then [p] + s else [s[0]] + Insert(p, s[1..])
  }

  function Sort(s: seq<Part>): seq<Part> {
    if s == [] then [] else Insert(s[0], Sort(s[1..]))
  }

  predicate Ascending(s: seq<Part>) {
    forall j, k | 0 <= j < k < |s| :: Before(s[j], s[k])
  }

  lemma {:induction false} InsertKeeps(p: Part, s: seq<Part>)
    requires Ascending(s)
    ensures Ascending(Insert(p, s))
    ensures multiset(Insert(p, s)) == multiset(s) + multiset{p}
  {
    if s == [] || Before(p, s[0]) {
    } else {
      InsertKeeps(p, s[1..]);
      var rest := Insert(p, s[1..]);
      assert s == [s[0]] + s[1..];
      forall k | 0 <= k < |rest| ensures Before(s[0], rest[k]) {
        assert rest[k] in multiset(rest);
        assert rest[k] in multiset(s[1..]) || rest[k] == p;
      }
    }
  }

  lemma {:induction false} SortSorts(s: seq<Part>)
    ensures Ascending(Sort(s))
    ensures multiset(Sort(s)) == multiset(s)
  {
    if s != [] {
      SortSorts(s[1..]);
      InsertKeeps(s[0], Sort(s[1..]));
      assert s == [s[0]] + s[1..];
    }
  }

  lemma HeadIsLeast(s: seq<Part>, p: Part)
    requires Ascending(s) && p in s
    ensures Before(s[0], p)
  {
    var k :| 0 <= k < |s| && s[k] == p;
    assert k == 0 || Before(s[0], s[k]);
  }

  lemma TailContents(s: seq<Part>)
    requires s != []
    ensures multiset(s[1..]) == multiset(s) - multiset{s[0]}
  {
    assert s == [s[0]] + s[1..];
  }

  lemma HeadsAgree(s: seq<Part>, t: seq<Part>)
    requires Ascending(s) && Ascending(t) && s != [] && t != [] && multiset(s) == multiset(t)
    ensures s[0] == t[0]
  {
    assert t[0] in multiset(t) && s[0] in multiset(s);
    HeadIsLeast(s, t[0]);
    HeadIsLeast(t, s[0]);
  }

  /** An ascending list is determined by its contents. */
  lemma {:induction false} AscendingUnique(s: seq<Part>, t: seq<Part>)
    requires Ascending(s) && Ascending(t) && multiset(s) == multiset(t)
    ensures s == t
    decreases |s|
  {
    if s == [] || t == [] {
      assert |multiset(s)| == |s| && |multiset(t)| == |t|;
    } else {
      HeadsAgree(s, t);
      TailContents(s);
      TailContents(t);
      AscendingUnique(s[1..], t[1..]);
      assert s == [s[0]] + s[1..];
      assert t == [t[0]] + t[1..];
    }
  }

  /** The key forgets the order of the items and nothing else. */
  lemma KeyDeterminesParts(s: seq<Part>, t: seq<Part>)
    ensures Sort(s) == Sort(t) <==> multiset(s) == multiset(t)
  {
    SortSorts(s);
    SortSorts(t);
    if multiset(s) == multiset(t) {
      AscendingUnique(Sort(s), Sort(t));
    }
  }
}
