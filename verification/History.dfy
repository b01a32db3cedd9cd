/** The in-memory history (app/history.rs): a move-to-front list of at most 50 entries. */
module History {
  import opened Selection
  import opened Wrappers

  const MAX_HISTORY: nat := 50

  datatype Source = Local | Remote(deviceName: string)
  datatype Entry = Entry(id: string, source: Source, contentHash: Option<string>, text: string)

  // ---------------------------------------------------------------------------
  // The list operations
  // ---------------------------------------------------------------------------

  predicate SameHash(e: Entry, h: string) { e.contentHash == Some(h) }

  /** The entries without content hash `h`, in order (`retain`). */
  function WithoutHash(l: seq<Entry>, h: string): (r: seq<Entry>)
    ensures |r| <= |l|
  {
    Select(l, (e: Entry) => !SameHash(e, h))
  }

  function WithoutId(l: seq<Entry>, id: string): (r: seq<Entry>)
    ensures |r| <= |l|
  {
    Select(l, (e: Entry) => e.id != id)
  }

  function Take(l: seq<Entry>, n: nat): seq<Entry> {
    if |l| <= n then l else l[..n]
  }

  /** One push: nothing if the head has the same hash; otherwise move to front and cut the tail. */
  function Pushed(l: seq<Entry>, e: Entry): seq<Entry> {
    if e.contentHash.Some? && l != [] && l[0].contentHash == e.contentHash then l
    else Take([e] + (if e.contentHash.Some? then WithoutHash(l, e.contentHash.value) else l), MAX_HISTORY)
  }

  class HistoryStore {
    var inner: seq<Entry>

    constructor ()
      ensures inner == []
    {
      inner := [];
    }

    method Push(entry: Entry)
      modifies this
      ensures inner == Pushed(old(inner), entry)
      ensures old(inner) != [] && entry.contentHash.Some? && old(inner)[0].contentHash == entry.contentHash ==> inner == old(inner)
      ensures !(old(inner) != [] && entry.contentHash.Some? && old(inner)[0].contentHash == entry.contentHash) ==>
        inner != [] && inner[0] == entry
      ensures entry.contentHash.None? ==> inner == [entry] + if |old(inner)| < 50 then old(inner) else old(inner)[..49]
    {
      if entry.contentHash.Some? {
        if inner != [] && inner[0].contentHash == entry.contentHash {
          return;
        }
        inner := WithoutHash(inner, entry.contentHash.value);
      }
      inner := [entry] + inner;
      ghost var all := inner;
      while MAX_HISTORY < |inner|
        invariant |inner| <= |all| && inner == all[..|inner|]
        invariant MAX_HISTORY <= |inner| || inner == all
        decreases |inner|
      {
        inner := inner[..|inner| - 1];
      }
    }

    method Remove(id: string) returns (removed: bool)
      modifies this
      ensures inner == WithoutId(old(inner), id)
      ensures removed <==> exists e :: e in old(inner) && e.id == id
      ensures forall e :: e in inner <==> e in old(inner) && e.id != id
    {
      var before := |inner|;
      WithoutIdMembers(inner, id);
      WithoutIdShrinks(inner, id);
      inner := WithoutId(inner, id);
      removed := |inner| < before;
    }

    method Clear()
      modifies this
      ensures inner == []
    {
      inner := [];
    }
  }

  // ---------------------------------------------------------------------------
  // The invariant over every run
  // ---------------------------------------------------------------------------

  datatype Op = Push(entry: Entry) | Remove(id: string) | Clear

  function Apply(l: seq<Entry>, op: Op): seq<Entry> {
    match op
    case Push(e) => Pushed(l, e)
    case Remove(id) => WithoutId(l, id)
    case Clear => []
  }

  function Run(ops: seq<Op>): seq<Entry> {
    if ops == [] then [] else Apply(Run(ops[..|ops| - 1]), ops[|ops| - 1])
  }

  /** Present hashes are pairwise distinct. */
  predicate DistinctHashes(l: seq<Entry>) {
    forall i, j | 0 <= i < j < |l| :: l[i].contentHash.Some? ==> l[i].contentHash != l[j].contentHash
  }

  lemma {:induction false} WithoutHashMembers(l: seq<Entry>, h: string)
    ensures forall e :: e in WithoutHash(l, h) <==> e in l && !SameHash(e, h)
  {
    if l != [] {
      WithoutHashMembers(l[1..], h);
      assert forall e :: e in l <==> e == l[0] || e in l[1..];
    }
  }

  lemma {:induction false} WithoutIdMembers(l: seq<Entry>, id: string)
    ensures forall e :: e in WithoutId(l, id) <==> e in l && e.id != id
  {
    if l != [] {
      WithoutIdMembers(l[1..], id);
      assert forall e :: e in l <==> e == l[0] || e in l[1..];
    }
  }

  lemma WithoutIdKeepsOrder(l: seq<Entry>, id: string) returns (at: seq<nat>)
    ensures |WithoutId(l, id)| == |at|
    ensures forall i | 0 <= i < |at| :: at[i] < |l| && WithoutId(l, id)[i] == l[at[i]]
    ensures forall i, j | 0 <= i < j < |at| :: at[i] < at[j]
    ensures forall k: nat | k < |l| :: k in at <==> l[k].id != id
  {
    at := KeepsOrder(l, (e: Entry) => e.id != id);
  }

  lemma {:induction false} WithoutIdShrinks(l: seq<Entry>, id: string)
    ensures |WithoutId(l, id)| < |l| <==> exists e :: e in l && e.id == id
  {
    if l != [] {
      WithoutIdShrinks(l[1..], id);
      assert forall e :: e in l <==> e == l[0] || e in l[1..];
    }
  }

  lemma DistinctCons(e: Entry, l: seq<Entry>)
    requires DistinctHashes(l)
    requires forall x | x in l :: e.contentHash.Some? ==> x.contentHash != e.contentHash
    ensures DistinctHashes([e] + l)
  {
    var all := [e] + l;
    forall i, j | 0 <= i < j < |all| && all[i].contentHash.Some? ensures all[i].contentHash != all[j].contentHash {
      assert all[j] in l;
    }
  }

  lemma DistinctTail(l: seq<Entry>)
    requires DistinctHashes(l) && l != []
    ensures DistinctHashes(l[1..])
    ensures forall x | x in l[1..] :: l[0].contentHash.Some? ==> x.contentHash != l[0].contentHash
  {
  }

  lemma {:induction false} WithoutHashKeepsDistinct(l: seq<Entry>, h: string)
    requires DistinctHashes(l)
    ensures DistinctHashes(WithoutHash(l, h))
  {
    if l != [] {
      DistinctTail(l);
      WithoutHashKeepsDistinct(l[1..], h);
      WithoutHashMembers(l[1..], h);
      DistinctCons(l[0], WithoutHash(l[1..], h));
    }
  }

  lemma {:induction false} WithoutIdKeepsDistinct(l: seq<Entry>, id: string)
    requires DistinctHashes(l)
    ensures DistinctHashes(WithoutId(l, id))
  {
    if l != [] {
      DistinctTail(l);
      WithoutIdKeepsDistinct(l[1..], id);
      WithoutIdMembers(l[1..], id);
      DistinctCons(l[0], WithoutId(l[1..], id));
    }
  }

  lemma PushedKeepsDistinct(l: seq<Entry>, e: Entry)
    requires DistinctHashes(l)
    ensures DistinctHashes(Pushed(l, e))
  {
    if e.contentHash.Some? {
      WithoutHashKeepsDistinct(l, e.contentHash.value);
      WithoutHashMembers(l, e.contentHash.value);
      DistinctCons(e, WithoutHash(l, e.contentHash.value));
    } else {
      DistinctCons(e, l);
    }
  }

  /** Whatever is pushed, removed and cleared: at most 50 entries, and no hash twice. */
  lemma {:induction false} EveryRunIsBoundedAndDistinct(ops: seq<Op>)
    ensures |Run(ops)| <= MAX_HISTORY && DistinctHashes(Run(ops))
  {
    if ops != [] {
      var before := Run(ops[..|ops| - 1]);
      EveryRunIsBoundedAndDistinct(ops[..|ops| - 1]);
      match ops[|ops| - 1] {
        case Push(e) => PushedKeepsDistinct(before, e);
        case Remove(id) => WithoutIdKeepsDistinct(before, id);
        case Clear =>
      }
    }
  }

  // ---------------------------------------------------------------------------
  // The exact recency list
  // ---------------------------------------------------------------------------

  function Pushes(es: seq<Entry>): (ops: seq<Op>)
    ensures |ops| == |es|
  {
    seq(|es|, i requires 0 <= i < |es| => Push(es[i]))
  }

  /** The store is new, or has just been cleared. */
  predicate Clean(ops: seq<Op>) { ops == [] || ops[|ops| - 1] == Clear }

  lemma RunSnoc(ops: seq<Op>, op: Op)
    ensures Run(ops + [op]) == Apply(Run(ops), op)
  {
    assert (ops + [op])[..|ops|] == ops;
  }

  lemma PushesSnoc(before: seq<Op>, es: seq<Entry>, e: Entry)
    ensures Run(before + Pushes(es + [e])) == Pushed(Run(before + Pushes(es)), e)
  {
    assert before + Pushes(es + [e]) == (before + Pushes(es)) + [Push(e)];
    RunSnoc(before + Pushes(es), Push(e));
  }

  predicate AllHashed(es: seq<Entry>) { forall i | 0 <= i < |es| :: es[i].contentHash.Some? }

  function Hashes(es: seq<Entry>): (hs: seq<string>)
    requires AllHashed(es)
    ensures |hs| == |es|
  {
    seq(|es|, i requires 0 <= i < |es| => es[i].contentHash.value)
  }

  function Except<T(==)>(hs: seq<T>, h: T): seq<T> {
    if hs == [] then []
    else if hs[0] == h then Except(hs[1..], h)
    else [hs[0]] + Except(hs[1..], h)
  }

  function Reverse<T>(s: seq<T>): (r: seq<T>)
    ensures |r| == |s|
  {
    if s == [] then [] else [s[|s| - 1]] + Reverse(s[..|s| - 1])
  }

  /** The first occurrence of every hash, in order. */
  function FirstDistinct<T(==)>(hs: seq<T>): seq<T> {
    if hs == [] then [] else
    var init, last := hs[..|hs| - 1], hs[|hs| - 1];
    if last in init then FirstDistinct(init) else FirstDistinct(init) + [last]
  }

  lemma {:induction false} ExceptAbsent<T>(hs: seq<T>, h: T)
    requires h !in hs
    ensures Except(hs, h) == hs
  {
    if hs != [] {
      ExceptAbsent(hs[1..], h);
    }
  }

  lemma {:induction false} ExceptLast<T>(hs: seq<T>, last: T, h: T)
    ensures Except(hs + [last], h) == if last == h then Except(hs, h) else Except(hs, h) + [last]
  {
    if hs == [] {
      assert ([] + [last])[1..] == [];
    } else {
      ExceptLast(hs[1..], last, h);
      assert (hs + [last])[1..] == hs[1..] + [last];
    }
  }

  lemma FirstDistinctSnoc<T>(hs: seq<T>, last: T)
    ensures FirstDistinct(hs + [last]) == if last in hs then FirstDistinct(hs) else FirstDistinct(hs) + [last]
  {
    assert (hs + [last])[..|hs|] == hs;
  }

  /** One step of the induction, on what the function has come to before it (`first`, `all`) and after it. */
  lemma DistinctStep<T>(h: T, last: T, seen: bool, first: seq<T>, all: seq<T>, first': seq<T>, all': seq<T>)
    requires all == [h] + Except(first, h)
    requires first' == if seen then first else first + [last]
    requires all' == if last == h || seen then all else all + [last]
    ensures all' == [h] + Except(first', h)
  {
    ExceptLast(first, last, h);
  }

  lemma FirstDistinctStep<T>(h: T, init: seq<T>, last: T)
    requires FirstDistinct([h] + init) == [h] + Except(FirstDistinct(init), h)
    ensures FirstDistinct(([h] + init) + [last]) == [h] + Except(FirstDistinct(init + [last]), h)
  {
    FirstDistinctSnoc([h] + init, last);
    FirstDistinctSnoc(init, last);
    DistinctStep(h, last, last in init, FirstDistinct(init), FirstDistinct([h] + init),
                 FirstDistinct(init + [last]), FirstDistinct(([h] + init) + [last]));
  }

  lemma Rotated<T>(h: T, s: seq<T>)
    requires s != []
    ensures [h] + s == ([h] + s[..|s| - 1]) + [s[|s| - 1]] && s == s[..|s| - 1] + [s[|s| - 1]]
  {
  }

  lemma {:induction false} FirstDistinctCons<T>(h: T, hs: seq<T>)
    ensures FirstDistinct([h] + hs) == [h] + Except(FirstDistinct(hs), h)
  {
    if hs == [] {
      FirstDistinctSnoc([], h);
      assert [h] + hs == [] + [h];
    } else {
      FirstDistinctCons(h, hs[..|hs| - 1]);
      FirstDistinctStep(h, hs[..|hs| - 1], hs[|hs| - 1]);
      Rotated(h, hs);
    }
  }

  /** The list without its bound. */
  function Unbounded(es: seq<Entry>): seq<Entry> {
    if es == [] then [] else
    PushedUnbounded(Unbounded(es[..|es| - 1]), es[|es| - 1])
  }

  function PushedUnbounded(before: seq<Entry>, e: Entry): seq<Entry> {
    if before != [] && before[0].contentHash == e.contentHash then before
    else [e] + (if e.contentHash.Some? then WithoutHash(before, e.contentHash.value) else before)
  }

  lemma {:induction false} HashesOfWithout(l: seq<Entry>, h: string)
    requires AllHashed(l)
    ensures AllHashed(WithoutHash(l, h)) && Hashes(WithoutHash(l, h)) == Except(Hashes(l), h)
  {
    if l != [] {
      HashesOfWithout(l[1..], h);
      assert Hashes(l)[1..] == Hashes(l[1..]);
      var rest := WithoutHash(l[1..], h);
      assert Hashes([l[0]] + rest) == [Hashes(l)[0]] + Hashes(rest);
    }
  }

  /** Without the bound, the hashes are the distinct hashes of the pushes read backwards. */
  lemma {:induction false} UnboundedHashes(es: seq<Entry>)
    requires AllHashed(es)
    ensures AllHashed(Unbounded(es)) && DistinctHashes(Unbounded(es))
    ensures Hashes(Unbounded(es)) == FirstDistinct(Reverse(Hashes(es)))
    ensures es != [] ==> Unbounded(es) != [] && Unbounded(es)[0].contentHash == es[|es| - 1].contentHash
  {
    if es != [] {
      var init, e := es[..|es| - 1], es[|es| - 1];
      UnboundedHashes(init);
      PushedHashes(Unbounded(init), e);
      assert Hashes(es)[..|es| - 1] == Hashes(init);
      FirstDistinctCons(e.contentHash.value, Reverse(Hashes(init)));
    }
  }

  /** However it is done, a push puts its hash first and the other hashes after it. */
  lemma PushedHashes(before: seq<Entry>, e: Entry)
    requires AllHashed(before) && DistinctHashes(before) && e.contentHash.Some?
    ensures var r, h := PushedUnbounded(before, e), e.contentHash.value;
      && AllHashed(r) && DistinctHashes(r) && r != [] && r[0].contentHash == e.contentHash
      && Hashes(r) == [h] + Except(Hashes(before), h)
  {
    if before != [] && before[0].contentHash == e.contentHash {
      HeadOnly(before, e.contentHash.value);
    } else {
      MovedToFront(before, e);
    }
  }

  lemma MovedToFront(before: seq<Entry>, e: Entry)
    requires AllHashed(before) && DistinctHashes(before) && e.contentHash.Some?
    ensures var r, h := [e] + WithoutHash(before, e.contentHash.value), e.contentHash.value;
      AllHashed(r) && DistinctHashes(r) && Hashes(r) == [h] + Except(Hashes(before), h)
  {
    var h := e.contentHash.value;
    var rest := WithoutHash(before, h);
    HashesOfWithout(before, h);
    WithoutHashKeepsDistinct(before, h);
    WithoutHashMembers(before, h);
    DistinctCons(e, rest);
    assert Hashes([e] + rest) == [h] + Hashes(rest);
  }

  lemma HeadOnly(l: seq<Entry>, h: string)
    requires AllHashed(l) && DistinctHashes(l) && l != [] && SameHash(l[0], h)
    ensures Hashes(l) == [h] + Except(Hashes(l), h)
  {
    var hs := Hashes(l);
    assert hs == [h] + hs[1..];
    assert h !in hs[1..];
    ExceptAbsent(hs[1..], h);
  }

  lemma {:induction false} WithoutAbsent(l: seq<Entry>, h: string)
    requires forall e | e in l :: !SameHash(e, h)
    ensures WithoutHash(l, h) == l
  {
    if l != [] {
      WithoutAbsent(l[1..], h);
    }
  }

  lemma WithoutHashCons(x: Entry, l: seq<Entry>, h: string)
    ensures WithoutHash([x] + l, h) == if SameHash(x, h) then WithoutHash(l, h) else [x] + WithoutHash(l, h)
  {
    assert ([x] + l)[1..] == l;
  }

  /** Cutting a distinct list before removing one hash loses nothing the bound would have kept. */
  lemma {:induction false} CutCommutes(l: seq<Entry>, h: string, n: nat)
    requires DistinctHashes(l)
    ensures Take(WithoutHash(Take(l, n + 1), h), n) == Take(WithoutHash(l, h), n)
  {
    if n + 1 < |l| {
      DistinctTail(l);
      var x, rest := l[0], l[1..];
      assert l == [x] + rest && Take(l, n + 1) == [x] + rest[..n];
      WithoutHashCons(x, rest, h);
      WithoutHashCons(x, rest[..n], h);
      if SameHash(x, h) {
        WithoutAbsent(rest, h);
        WithoutAbsent(rest[..n], h);
      } else if n != 0 {
        CutCommutes(rest, h, n - 1);
        TakeCons(x, WithoutHash(rest, h), n);
        TakeCons(x, WithoutHash(Take(rest, n), h), n);
      }
    }
  }

  lemma TakeCons(e: Entry, l: seq<Entry>, n: nat)
    requires 1 <= n
    ensures Take([e] + l, n) == [e] + Take(l, n - 1)
  {
  }

  lemma PushedCutsOneStep(full: seq<Entry>, e: Entry)
    requires DistinctHashes(full) && e.contentHash.Some?
    ensures Pushed(Take(full, MAX_HISTORY), e) == Take(PushedUnbounded(full, e), MAX_HISTORY)
  {
    if !(full != [] && full[0].contentHash == e.contentHash) {
      var h, kept := e.contentHash.value, Take(full, MAX_HISTORY);
      CutCommutes(full, h, MAX_HISTORY - 1);
      TakeCons(e, WithoutHash(kept, h), MAX_HISTORY);
      TakeCons(e, WithoutHash(full, h), MAX_HISTORY);
    }
  }

  lemma {:induction false} RunCutsUnbounded(before: seq<Op>, es: seq<Entry>)
    requires Clean(before) && AllHashed(es)
    ensures Run(before + Pushes(es)) == Take(Unbounded(es), MAX_HISTORY)
  {
    if es == [] {
      assert before + Pushes(es) == before;
    } else {
      var init, e := es[..|es| - 1], es[|es| - 1];
      RunCutsUnbounded(before, init);
      PushesSnoc(before, init, e);
      assert es == init + [e];
      UnboundedHashes(init);
      PushedCutsOneStep(Unbounded(init), e);
    }
  }

  /** After any pushes of hashed entries since the start or the last clear, whatever came before, the hashes shown are
      the first 50 distinct hashes of the push sequence read backwards. */
  lemma HistoryIsTheRecencyList(before: seq<Op>, es: seq<Entry>)
    requires Clean(before) && AllHashed(es)
    ensures var shown, recent := Run(before + Pushes(es)), FirstDistinct(Reverse(Hashes(es)));
      AllHashed(shown) && Hashes(shown) == if |recent| <= MAX_HISTORY then recent else recent[..MAX_HISTORY]
  {
    RunCutsUnbounded(before, es);
    UnboundedHashes(es);
  }

  // ---------------------------------------------------------------------------
  // Which entry is shown for a hash
  // ---------------------------------------------------------------------------

  /** Consecutive pushes of one hash count once, and it is the first of them that stays. */
  function Compressed(es: seq<Entry>): seq<Entry> {
    if es == [] then [] else
    var init, e := es[..|es| - 1], es[|es| - 1];
    if init != [] && init[|init| - 1].contentHash == e.contentHash then Compressed(init) else Compressed(init) + [e]
  }

  predicate Shown(l: seq<Entry>, e: Entry) { exists x :: x in l && x.contentHash == e.contentHash }

  /** The first entry of every hash, in order. */
  function FirstOfHash(l: seq<Entry>): seq<Entry> {
    if l == [] then [] else
    var init, last := l[..|l| - 1], l[|l| - 1];
    if Shown(init, last) then FirstOfHash(init) else FirstOfHash(init) + [last]
  }

  lemma {:induction false} WithoutHashLast(l: seq<Entry>, last: Entry, h: string)
    ensures WithoutHash(l + [last], h) == if SameHash(last, h) then WithoutHash(l, h) else WithoutHash(l, h) + [last]
  {
    if l == [] {
      assert ([] + [last])[1..] == [];
    } else {
      WithoutHashLast(l[1..], last, h);
      assert (l + [last])[1..] == l[1..] + [last];
    }
  }

  lemma FirstOfHashSnoc(l: seq<Entry>, last: Entry)
    ensures FirstOfHash(l + [last]) == if Shown(l, last) then FirstOfHash(l) else FirstOfHash(l) + [last]
  {
    assert (l + [last])[..|l|] == l;
  }

  /** One step of the induction, on what the functions have come to before it (`first`, `all`) and after it. */
  lemma KeptStep(e: Entry, last: Entry, shown: bool, first: seq<Entry>, all: seq<Entry>, first': seq<Entry>, all': seq<Entry>)
    requires e.contentHash.Some? && all == [e] + WithoutHash(first, e.contentHash.value)
    requires first' == if shown then first else first + [last]
    requires all' == if last.contentHash == e.contentHash || shown then all else all + [last]
    ensures all' == [e] + WithoutHash(first', e.contentHash.value)
  {
    WithoutHashLast(first, last, e.contentHash.value);
  }

  lemma FirstOfHashStep(e: Entry, init: seq<Entry>, last: Entry)
    requires e.contentHash.Some? && FirstOfHash([e] + init) == [e] + WithoutHash(FirstOfHash(init), e.contentHash.value)
    ensures FirstOfHash(([e] + init) + [last]) == [e] + WithoutHash(FirstOfHash(init + [last]), e.contentHash.value)
  {
    FirstOfHashSnoc([e] + init, last);
    FirstOfHashSnoc(init, last);
    ShownCons(e, init, last);
    KeptStep(e, last, Shown(init, last), FirstOfHash(init), FirstOfHash([e] + init),
             FirstOfHash(init + [last]), FirstOfHash(([e] + init) + [last]));
  }

  lemma {:induction false} FirstOfHashCons(e: Entry, l: seq<Entry>)
    requires e.contentHash.Some?
    ensures FirstOfHash([e] + l) == [e] + WithoutHash(FirstOfHash(l), e.contentHash.value)
  {
    if l == [] {
      FirstOfHashSnoc([], e);
      assert [e] + l == [] + [e];
    } else {
      var init, last := l[..|l| - 1], l[|l| - 1];
      FirstOfHashCons(e, init);
      FirstOfHashStep(e, init, last);
      Rotated(e, l);
    }
  }

  lemma ShownCons(e: Entry, l: seq<Entry>, x: Entry)
    ensures Shown([e] + l, x) <==> x.contentHash == e.contentHash || Shown(l, x)
  {
    assert e in [e] + l;
    if Shown(l, x) {
      var y :| y in l && y.contentHash == x.contentHash;
      assert y in [e] + l;
    }
  }

  lemma {:induction false} UnboundedEntries(es: seq<Entry>)
    requires AllHashed(es)
    ensures Unbounded(es) == FirstOfHash(Reverse(Compressed(es)))
  {
    if es != [] {
      var init, e := es[..|es| - 1], es[|es| - 1];
      UnboundedEntries(init);
      UnboundedHashes(init);
      if !(init != [] && init[|init| - 1].contentHash == e.contentHash) {
        assert Compressed(es)[..|Compressed(es)| - 1] == Compressed(init);
        FirstOfHashCons(e, Reverse(Compressed(init)));
      }
    }
  }

  /** The same theorem for whole entries. */
  lemma HistoryShowsTheseEntries(before: seq<Op>, es: seq<Entry>)
    requires Clean(before) && AllHashed(es)
    ensures Run(before + Pushes(es)) == Take(FirstOfHash(Reverse(Compressed(es))), MAX_HISTORY)
  {
    RunCutsUnbounded(before, es);
    UnboundedEntries(es);
  }
}
