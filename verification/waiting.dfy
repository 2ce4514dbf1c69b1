/** The server's waiting passengers (`waiting_passengers` in elevator/main.py):
    floor -> direction -> list of (destination, group size), with Python's
    defaultdict behaviour made explicit. */
module Waiting {
  import opened Wrappers
  import opened Collections

  datatype Dir = Up | Down

  /** A group of `count` people at one floor, all going to `dest`. */
  datatype Group = Group(dest: int, count: int)

  type Queues = map<int, map<Dir, seq<Group>>>

  /** Whether `waiting[f][d]` exists as a key path (without defaultdict creating it). */
  predicate HasList(w: Queues, f: int, d: Dir) {
    f in w && d in w[f]
  }

  /** `waiting.get(f, {}).get(d, [])`. */
  function ListAt(w: Queues, f: int, d: Dir): seq<Group> {
    if HasList(w, f, d) then w[f][d] else []
  }

  /** No floor without directions and no empty list is stored. */
  ghost predicate NoEmpty(w: Queues) {
    forall f :: f in w ==> w[f] != map[] && forall d :: d in w[f] ==> w[f][d] != []
  }

  /** `waiting[f][d] = l`, then, if `l` is empty, `del waiting[f][d]` and
      `del waiting[f]` when no direction is left there. */
  function Store(w: Queues, f: int, d: Dir, l: seq<Group>): (r: Queues)
    ensures ListAt(r, f, d) == l
    ensures HasList(r, f, d) <==> l != []
    ensures forall g, k :: (g != f || k != d) ==> ListAt(r, g, k) == ListAt(w, g, k)
    ensures forall g :: g != f ==> (g in r <==> g in w) && (g in w ==> r[g] == w[g])
    ensures f in r ==> r[f] != map[] && (forall k :: k != d ==> (k in r[f] <==> HasList(w, f, k)))
    ensures NoEmpty(w) ==> NoEmpty(r)
  {
    var inner := if f in w then w[f] else map[];
    if l != [] then w[f := inner[d := l]]
    else
      var rest := inner - {d};
      assert forall k :: k in inner && k != d ==> k in rest;
      if rest == map[] then w - {f} else w[f := rest]
  }

  function Sum(l: seq<Group>): int {
    if |l| == 0 then 0 else Sum(l[..|l| - 1]) + l[|l| - 1].count
  }

  lemma {:induction false} SumAppend(a: seq<Group>, b: seq<Group>)
    ensures Sum(a + b) == Sum(a) + Sum(b)
  {
    if |b| > 0 {
      SumAppend(a, b[..|b| - 1]);
      assert (a + b)[..|a + b| - 1] == a + b[..|b| - 1];
    } else {
      assert a + b == a;
    }
  }

  lemma SumCons(l: seq<Group>)
    requires |l| > 0
    ensures Sum(l) == l[0].count + Sum(l[1..])
  {
    assert l == [l[0]] + l[1..];
    SumAppend([l[0]], l[1..]);
    assert Sum([l[0]]) == l[0].count by { assert [l[0]][..0] == []; }
  }

  /** The seats a group takes (its size, never negative). */
  function Seats(g: Group): nat {
    if g.count > 0 then g.count else 0
  }

  /** The destinations of everyone in `l`, group by group in queue order. */
  function Flatten(l: seq<Group>): (r: seq<int>)
    ensures forall x :: x in r ==> exists i :: 0 <= i < |l| && l[i].dest == x
  {
    if |l| == 0 then [] else Repeat(l[0].dest, Seats(l[0])) + Flatten(l[1..])
  }

  /** Storing back the list already there changes nothing. */
  lemma StoreSame(w: Queues, f: int, d: Dir)
    requires ListAt(w, f, d) != []
    ensures Store(w, f, d, ListAt(w, f, d)) == w
  {
    assert w[f][d := w[f][d]] == w[f];
  }

  /** Number of people waiting at floor `f` for direction `d`. */
  function TotalAt(w: Queues, f: int, d: Dir): int {
    Sum(ListAt(w, f, d))
  }

  /** What every waiting group satisfies: a positive size and a valid destination on
      the side of `f` its direction says. */
  predicate GroupOk(g: Group, f: int, d: Dir, lowest: int, highest: int) {
    && g.count >= 1
    && lowest <= g.dest <= highest
    && (if d == Up then g.dest > f else g.dest < f)
  }

  predicate ListOk(l: seq<Group>, f: int, d: Dir, lowest: int, highest: int) {
    forall i :: 0 <= i < |l| ==> GroupOk(l[i], f, d, lowest, highest)
  }

  lemma ListOkTail(l: seq<Group>, f: int, d: Dir, lowest: int, highest: int)
    requires ListOk(l, f, d, lowest, highest) && |l| > 0
    ensures GroupOk(l[0], f, d, lowest, highest) && ListOk(l[1..], f, d, lowest, highest)
  {
    forall i | 0 <= i < |l[1..]| ensures GroupOk(l[1..][i], f, d, lowest, highest) {
      assert l[1..][i] == l[i + 1];
    }
  }

  lemma ListOkAppend(l: seq<Group>, g: Group, f: int, d: Dir, lowest: int, highest: int)
    requires ListOk(l, f, d, lowest, highest) && GroupOk(g, f, d, lowest, highest)
    ensures ListOk(l + [g], f, d, lowest, highest)
  {
  }

  /** The queue invariant for a building spanning `lowest..highest`. */
  ghost predicate WellFormed(w: Queues, lowest: int, highest: int) {
    && NoEmpty(w)
    && (forall f :: f in w ==> lowest <= f <= highest)
    && (forall f, d :: HasList(w, f, d) ==> ListOk(w[f][d], f, d, lowest, highest))
  }

  lemma StorePreservesWellFormed(w: Queues, f: int, d: Dir, l: seq<Group>, lowest: int, highest: int)
    requires WellFormed(w, lowest, highest)
    requires ListOk(l, f, d, lowest, highest)
    requires l != [] ==> lowest <= f <= highest
    ensures WellFormed(Store(w, f, d, l), lowest, highest)
  {
    var r := Store(w, f, d, l);
    forall g, k | HasList(r, g, k)
      ensures ListOk(r[g][k], g, k, lowest, highest)
    {
      if g == f && k == d {
        assert r[g][k] == ListAt(r, f, d);
      } else {
        assert r[g][k] == ListAt(r, g, k) == ListAt(w, g, k);
        assert HasList(w, g, k);
      }
    }
    forall g | g in r
      ensures lowest <= g <= highest
    {
      if g == f {
        assert r[f] != map[];
        if l == [] {
          var k :| k in r[f];
          assert HasList(w, f, k);
        }
      }
    }
  }

  /** Index of the first group equal to (dest, count). */
  function FirstMatch(l: seq<Group>, dest: int, count: int): (r: Option<nat>)
    ensures r.Some? ==>
      && r.value < |l| && l[r.value] == Group(dest, count)
      && forall j :: 0 <= j < r.value ==> l[j] != Group(dest, count)
    ensures r.None? ==> forall j :: 0 <= j < |l| ==> l[j] != Group(dest, count)
  {
    if |l| == 0 then None
    else if l[0] == Group(dest, count) then Some(0)
    else
      match FirstMatch(l[1..], dest, count)
      case None => None
      case Some(i) => Some(i + 1)
  }

  /** The rewrite loop of `process_boarding_decision`: the first group equal to
      (dest, count) shrinks by `boarded` and disappears when nobody is left in it. */
  function ReduceFirst(l: seq<Group>, dest: int, count: int, boarded: int): (r: seq<Group>)
    ensures FirstMatch(l, dest, count).None? ==> r == l
    ensures FirstMatch(l, dest, count).Some? ==>
      var i := FirstMatch(l, dest, count).value;
      r == l[..i] + (if count - boarded > 0 then [Group(dest, count - boarded)] else []) + l[i + 1..]
  {
    if |l| == 0 then []
    else if l[0] == Group(dest, count) then
      assert l == [l[0]] + l[1..];
      (if count - boarded > 0 then [Group(dest, count - boarded)] else []) + l[1..]
    else
      var rest := ReduceFirst(l[1..], dest, count, boarded);
      assert l == [l[0]] + l[1..];
      var m := FirstMatch(l[1..], dest, count);
      if m.Some? then
        ConsSplice(l[0], l[1..], m.value, if count - boarded > 0 then [Group(dest, count - boarded)] else []);
        [l[0]] + rest
      else
        [l[0]] + rest
  }

  /** Splicing inside the tail is splicing one position further in the whole list. */
  lemma ConsSplice(x: Group, t: seq<Group>, j: nat, mid: seq<Group>)
    requires j < |t|
    ensures [x] + (t[..j] + mid + t[j + 1..]) == ([x] + t)[..j + 1] + mid + ([x] + t)[j + 2..]
  {
    assert ([x] + t)[..j + 1] == [x] + t[..j];
    assert ([x] + t)[j + 2..] == t[j + 1..];
  }

  /** Shrinking the first matching group removes exactly `boarded` people from the list. */
  lemma ReduceFirstSum(l: seq<Group>, dest: int, count: int, boarded: int)
    requires FirstMatch(l, dest, count).Some?
    requires boarded < count
    ensures Sum(ReduceFirst(l, dest, count, boarded)) == Sum(l) - boarded
  {
    var i := FirstMatch(l, dest, count).value;
    assert l == l[..i] + [l[i]] + l[i + 1..];
    SumAppend(l[..i] + [l[i]], l[i + 1..]);
    SumAppend(l[..i], [l[i]]);
    SumAppend(l[..i] + [Group(dest, count - boarded)], l[i + 1..]);
    SumAppend(l[..i], [Group(dest, count - boarded)]);
    assert Sum([l[i]]) == count by { assert [l[i]][..0] == []; }
    assert Sum([Group(dest, count - boarded)]) == count - boarded by {
      assert [Group(dest, count - boarded)][..0] == [];
    }
  }

  lemma ReduceFirstOk(l: seq<Group>, dest: int, count: int, boarded: int, f: int, d: Dir, lowest: int, highest: int)
    requires ListOk(l, f, d, lowest, highest)
    ensures ListOk(ReduceFirst(l, dest, count, boarded), f, d, lowest, highest)
  {
    var r := ReduceFirst(l, dest, count, boarded);
    if FirstMatch(l, dest, count).Some? {
      var i := FirstMatch(l, dest, count).value;
      assert GroupOk(l[i], f, d, lowest, highest);
      forall j | 0 <= j < |r|
        ensures GroupOk(r[j], f, d, lowest, highest)
      {
        if j < i {
          assert r[j] == l[j];
        } else if count - boarded > 0 && j == i {
          assert r[j] == Group(dest, count - boarded);
        } else {
          assert r[j] == l[if count - boarded > 0 then j else j + 1];
        }
      }
    }
  }
}
