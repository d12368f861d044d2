/** What becomes of the entries of the confirmation list: the exact effect of a scan, and
    whole runs of broadcasts, syncs and confirmations. */
module ConfirmationRuns {
  import opened Merkle
  import opened ProofOps
  import opened ChainTypes
  import opened KeyValue
  import opened BitcoinBlock
  import opened Confirmations

  // ---- one scan ------------------------------------------------------------

  lemma {:induction false} WaitingMembers(list: Entries, e: TxID)
    ensures e in Waiting(list) <==> Text(e) in list && e.blockHeight == 0
  {
    if list != [] {
      WaitingMembers(list[..|list| - 1], e);
      assert list == list[..|list| - 1] + [list[|list| - 1]];
    }
  }

  /** The waiting entry a sighting of its ID finds. */
  predicate IsFirst(waiting: seq<TxID>, e: TxID)
  {
    var k := FirstIndex(TxIds(waiting), e.txId);
    k >= 0 && waiting[k] == e
  }

  /** Sightings of a transaction above the genesis block. */
  function Hits(seen: seq<Sighting>, txId: string): nat
  {
    if seen == [] then 0
    else Hits(seen[..|seen| - 1], txId) + if seen[|seen| - 1].txId == txId && seen[|seen| - 1].height > 0 then 1 else 0
  }

  function HitsAt(seen: seq<Sighting>, txId: string, height: int): nat
  {
    if seen == [] then 0
    else HitsAt(seen[..|seen| - 1], txId, height) + if seen[|seen| - 1].txId == txId && seen[|seen| - 1].height == height then 1 else 0
  }

  ghost predicate Ascending(seen: seq<Sighting>)
  {
    forall i, j :: 0 <= i < j < |seen| ==> seen[i].height <= seen[j].height
  }

  function Count(list: Entries, v: Stored<TxID>): nat
  {
    multiset(list)[v]
  }

  /** How often an entry is listed after a scan: a waiting one, if it is the one found, once
      less per hit while there are any; one with a height once more per sighting there. */
  function Expected(list: Entries, seen: seq<Sighting>, v: Stored<TxID>): nat
  {
    var m := Count(list, v);
    if v.Unparsable? then m
    else if v.value.blockHeight == 0 then
      if IsFirst(Waiting(list), v.value) then (if m > Hits(seen, v.value.txId) then m - Hits(seen, v.value.txId) else 0) else m
    else m + if IsFirst(Waiting(list), v.value.(blockHeight := 0)) then HitsAt(seen, v.value.txId, v.value.blockHeight) else 0
  }

  lemma {:induction false} NoHitsAtGenesis(seen: seq<Sighting>, txId: string)
    requires forall i :: 0 <= i < |seen| ==> seen[i].height == 0
    ensures Hits(seen, txId) == 0
  {
    if seen != [] {
      NoHitsAtGenesis(seen[..|seen| - 1], txId);
    }
  }

  lemma MarkedCount(list: Entries, waiting: seq<TxID>, s: Sighting, v: Stored<TxID>)
    ensures var k := FirstIndex(TxIds(waiting), s.txId);
            Count(Marked(list, waiting, s), v) ==
            if k < 0 then Count(list, v)
            else (if v == Text(waiting[k]) && Count(list, v) > 0 then Count(list, v) - 1 else Count(list, v))
                 + if v == Text(waiting[k].(blockHeight := s.height)) then 1 else 0
  {
    var k := FirstIndex(TxIds(waiting), s.txId);
    if k >= 0 {
      DelFirstMultiset(list, Text(waiting[k]));
    }
  }

  lemma HitsStep(before: seq<Sighting>, s: Sighting, txId: string, height: int)
    ensures Hits(before + [s], txId) == Hits(before, txId) + if s.txId == txId && s.height > 0 then 1 else 0
    ensures HitsAt(before + [s], txId, height) == HitsAt(before, txId, height) + if s.txId == txId && s.height == height then 1 else 0
  {
    assert (before + [s])[..|before|] == before;
  }

  /** One more sighting changes the expectation as it changes the list. */
  lemma ExpectedStep(list: Entries, before: seq<Sighting>, s: Sighting, v: Stored<TxID>)
    requires s.height == 0 ==> Hits(before, s.txId) == 0
    ensures var k, n := FirstIndex(TxIds(Waiting(list)), s.txId), Expected(list, before, v);
            Expected(list, before + [s], v) ==
            if k < 0 then n
            else (if v == Text(Waiting(list)[k]) && n > 0 then n - 1 else n)
                 + if v == Text(Waiting(list)[k].(blockHeight := s.height)) then 1 else 0
  {
    var waiting := Waiting(list);
    var k := FirstIndex(TxIds(waiting), s.txId);
    if v.Text? {
      HitsStep(before, s, v.value.txId, v.value.blockHeight);
    }
    if k >= 0 {
      WaitingMembers(list, waiting[k]);
      assert waiting[k] in waiting && Text(waiting[k]) in multiset(list);
    }
  }

  lemma CountStep(list: Entries, l: Entries, before: seq<Sighting>, s: Sighting, v: Stored<TxID>)
    requires Count(l, v) == Expected(list, before, v) && (s.height == 0 ==> Hits(before, s.txId) == 0)
    ensures Count(Marked(l, Waiting(list), s), v) == Expected(list, before + [s], v)
  {
    MarkedCount(l, Waiting(list), s, v);
    ExpectedStep(list, before, s, v);
  }

  lemma {:induction false} ScanExactly(list: Entries, seen: seq<Sighting>, v: Stored<TxID>)
    requires Ascending(seen)
    ensures Count(MarkedAll(list, Waiting(list), seen), v) == Expected(list, seen, v)
  {
    if seen != [] {
      var before, s := seen[..|seen| - 1], seen[|seen| - 1];
      ScanExactly(list, before, v);
      if s.height == 0 {
        NoHitsAtGenesis(before, s.txId);
      }
      CountStep(list, MarkedAll(list, Waiting(list), before), before, s, v);
      assert before + [s] == seen;
    }
  }

  // ---- nothing lost, nothing doubled ---------------------------------------

  /** An entry without its height: what it was when it was appended. */
  function Origin(e: Stored<TxID>): Stored<TxID>
  {
    if e.Text? then Text(e.value.(blockHeight := 0)) else e
  }

  function Origins(list: Entries): (r: Entries)
  {
    if list == [] then [] else Origins(list[..|list| - 1]) + [Origin(list[|list| - 1])]
  }

  lemma {:induction false} OriginsConcat(a: Entries, b: Entries)
    ensures Origins(a + b) == Origins(a) + Origins(b)
  {
    if b == [] {
      assert a + b == a;
    } else {
      assert (a + b)[..|a + b| - 1] == a + b[..|b| - 1];
      OriginsConcat(a, b[..|b| - 1]);
    }
  }

  lemma {:induction false} OriginsDelFirst(list: Entries, v: Stored<TxID>)
    requires v in list
    ensures multiset(Origins(list)) == multiset(Origins(DelFirst(list, v))) + multiset{Origin(v)}
  {
    var first, rest := list[0], list[1..];
    OriginsFirst(first, rest);
    assert list == [first] + rest;
    if first != v {
      OriginsDelFirst(rest, v);
      OriginsFirst(first, DelFirst(rest, v));
      Regroup(multiset{Origin(first)}, multiset(Origins(DelFirst(rest, v))), multiset{Origin(v)});
    } else {
      Regroup(multiset{Origin(first)}, multiset(Origins(rest)), multiset{});
    }
  }

  lemma Regroup<T>(a: multiset<T>, b: multiset<T>, c: multiset<T>)
    ensures a + (b + c) == (a + b) + c && a + b == b + a
  {
  }

  lemma OriginsFirst(e: Stored<TxID>, rest: Entries)
    ensures multiset(Origins([e] + rest)) == multiset{Origin(e)} + multiset(Origins(rest))
  {
    OriginsConcat([e], rest);
    assert Origins([e]) == [Origin(e)];
  }

  /** The sightings a scan can take: no found entry is hit more often than it is listed. */
  ghost predicate HitsFit(list: Entries, seen: seq<Sighting>)
  {
    forall e :: IsFirst(Waiting(list), e) ==> Hits(seen, e.txId) <= Count(list, Text(e))
  }

  /** One sighting keeps the origins, or adds one when the entry it finds is gone already. */
  lemma MarkedOrigins(list: Entries, waiting: seq<TxID>, s: Sighting)
    requires forall e :: e in waiting ==> e.blockHeight == 0
    ensures var k := FirstIndex(TxIds(waiting), s.txId);
            multiset(Origins(Marked(list, waiting, s))) ==
            multiset(Origins(list)) + if k >= 0 && Text(waiting[k]) !in list then multiset{Text(waiting[k])} else multiset{}
  {
    var k := FirstIndex(TxIds(waiting), s.txId);
    if k >= 0 {
      assert waiting[k] in waiting;
      var e := waiting[k];
      OriginsConcat(DelFirst(list, Text(e)), [Text(e.(blockHeight := s.height))]);
      assert Origins([Text(e.(blockHeight := s.height))]) == [Text(e)];
      if Text(e) in list {
        OriginsDelFirst(list, Text(e));
      } else {
        DelAbsent(list, Text(e));
      }
    }
  }

  /** The found entry of a sighting is gone exactly when its hits used up its copies. */
  lemma GoneWhenHit(list: Entries, before: seq<Sighting>, s: Sighting)
    requires Ascending(before + [s])
    ensures var k, l := FirstIndex(TxIds(Waiting(list)), s.txId), MarkedAll(list, Waiting(list), before);
            k >= 0 ==> (Text(Waiting(list)[k]) !in l <==> s.height > 0 && Hits(before, s.txId) >= Count(list, Text(Waiting(list)[k])))
  {
    var k := FirstIndex(TxIds(Waiting(list)), s.txId);
    if k >= 0 {
      var e := Waiting(list)[k];
      assert Ascending(before) by {
        assert before == (before + [s])[..|before|];
      }
      ScanExactly(list, before, Text(e));
      WaitingMembers(list, e);
      assert Text(e) in multiset(list);
      var l := MarkedAll(list, Waiting(list), before);
      assert Text(e) in l <==> Text(e) in multiset(l);
      if s.height == 0 {
        forall i | 0 <= i < |before| ensures before[i].height == 0 {
          assert before[i] == (before + [s])[i] && (before + [s])[|before|] == s;
        }
        NoHitsAtGenesis(before, s.txId);
      }
    }
  }

  lemma HitsFitStep(list: Entries, before: seq<Sighting>, s: Sighting)
    requires Ascending(before + [s])
    ensures var k, l := FirstIndex(TxIds(Waiting(list)), s.txId), MarkedAll(list, Waiting(list), before);
            HitsFit(list, before + [s]) <==> HitsFit(list, before) && (k >= 0 ==> Text(Waiting(list)[k]) in l)
  {
    GoneWhenHit(list, before, s);
    var k, seen := FirstIndex(TxIds(Waiting(list)), s.txId), before + [s];
    assert seen[..|seen| - 1] == before;
    if k >= 0 {
      assert IsFirst(Waiting(list), Waiting(list)[k]);
    }
    forall e | IsFirst(Waiting(list), e)
      ensures Hits(seen, e.txId) == Hits(before, e.txId) + if k >= 0 && e == Waiting(list)[k] && s.height > 0 then 1 else 0 {
    }
  }

  /** A scan never loses an entry; it doubles none exactly when no entry it finds is sighted
      above the genesis block more often than it is listed. */
  lemma {:induction false} ScanKeepsEntries(list: Entries, seen: seq<Sighting>)
    requires Ascending(seen)
    ensures var after := MarkedAll(list, Waiting(list), seen);
            && multiset(Origins(list)) <= multiset(Origins(after))
            && (multiset(Origins(after)) == multiset(Origins(list)) <==> HitsFit(list, seen))
  {
    if seen == [] {
    } else {
      var before, s, waiting := seen[..|seen| - 1], seen[|seen| - 1], Waiting(list);
      assert before + [s] == seen;
      ScanKeepsEntries(list, before);
      HitsFitStep(list, before, s);
      forall e | e in waiting ensures e.blockHeight == 0 {
        WaitingMembers(list, e);
      }
      MarkedOrigins(MarkedAll(list, waiting, before), waiting, s);
    }
  }

  // ---- sightings of a chain ------------------------------------------------

  /** The transactions of each block of the Bitcoin chain. */
  type Blocks = nat -> seq<string>

  /** LND delivers nothing but blocks of the chain. */
  ghost predicate Agrees(view: Chain, c: Blocks)
  {
    forall h :: view(h).Some? ==> view(h).value.transactions == c(h)
  }

  ghost predicate MinedOnce(c: Blocks, txId: string)
  {
    && (forall g, h :: txId in c(g) && txId in c(h) ==> g == h)
    && (forall h, i, j :: 0 <= i < |c(h)| && 0 <= j < |c(h)| && c(h)[i] == txId && c(h)[j] == txId ==> i == j)
  }

  lemma AscendingAppend(a: seq<Sighting>, b: seq<Sighting>, height: nat)
    requires Ascending(a) && (forall s :: s in a ==> s.height < height) && (forall s :: s in b ==> s.height == height)
    ensures Ascending(a + b)
  {
    forall i, j | 0 <= i < j < |a + b| ensures (a + b)[i].height <= (a + b)[j].height {
      assert i < |a| ==> a[i] in a;
      assert i >= |a| ==> b[i - |a|] in b;
      assert j >= |a| ==> b[j - |a|] in b;
    }
  }

  lemma {:induction false} SightingHeights(view: Chain, start: nat, stop: nat)
    ensures Ascending(Sightings(view, start, stop))
    ensures forall s :: s in Sightings(view, start, stop) ==> start <= s.height < stop
    decreases stop
  {
    if stop > start {
      SightingHeights(view, start, stop - 1);
      AscendingAppend(Sightings(view, start, stop - 1), SightingsAt(view, stop - 1), stop - 1);
    }
  }

  lemma {:induction false} HitsConcat(a: seq<Sighting>, b: seq<Sighting>, txId: string)
    ensures Hits(a + b, txId) == Hits(a, txId) + Hits(b, txId)
  {
    if b == [] {
      assert a + b == a;
    } else {
      assert (a + b)[..|a + b| - 1] == a + b[..|b| - 1];
      HitsConcat(a, b[..|b| - 1], txId);
    }
  }

  /** A block hits a transaction it holds once, once. */
  lemma {:induction false} HitsOfBlock(txs: seq<string>, height: nat, txId: string)
    requires height > 0 && forall i, j :: 0 <= i < |txs| && 0 <= j < |txs| && txs[i] == txId && txs[j] == txId ==> i == j
    ensures Hits(SightingsIn(txs, height), txId) == if txId in txs then 1 else 0
  {
    if txs != [] {
      var front := txs[..|txs| - 1];
      var seen := SightingsIn(txs, height);
      assert seen[..|seen| - 1] == SightingsIn(front, height);
      assert txs == front + [txs[|txs| - 1]];
      HitsOfBlock(front, height, txId);
    }
  }

  /** Whether one of the delivered blocks start .. stop - 1, genesis aside, holds a transaction. */
  ghost predicate MinedWithin(view: Chain, c: Blocks, start: nat, stop: nat, txId: string)
  {
    exists h :: start <= h < stop && h > 0 && view(h).Some? && txId in c(h)
  }

  lemma HitsOfHeight(view: Chain, c: Blocks, h: nat, txId: string)
    requires Agrees(view, c) && MinedOnce(c, txId)
    ensures Hits(SightingsAt(view, h), txId) == if h > 0 && view(h).Some? && txId in c(h) then 1 else 0
  {
    if view(h).Some? {
      if h > 0 {
        HitsOfBlock(c(h), h, txId);
      } else {
        NoHitsAtGenesis(SightingsAt(view, h), txId);
      }
    }
  }

  /** Blocks start .. stop - 1 hit a transaction mined once at most once, and do so exactly
      when its block is among them. */
  lemma {:induction false} HitsOfChain(view: Chain, c: Blocks, start: nat, stop: nat, txId: string)
    requires Agrees(view, c) && MinedOnce(c, txId)
    ensures Hits(Sightings(view, start, stop), txId) == if MinedWithin(view, c, start, stop, txId) then 1 else 0
    decreases stop
  {
    if stop > start {
      HitsOfChain(view, c, start, stop - 1, txId);
      HitsConcat(Sightings(view, start, stop - 1), SightingsAt(view, stop - 1), txId);
      HitsOfHeight(view, c, stop - 1, txId);
      assert MinedWithin(view, c, start, stop, txId) <==>
             MinedWithin(view, c, start, stop - 1, txId) || (stop - 1 > 0 && view(stop - 1).Some? && txId in c(stop - 1));
    }
  }

  // ---- one sync ------------------------------------------------------------

  /** A sync marks a waiting entry, listed once under an ID of its own and mined at height h,
      exactly when it looks and reaches block h; the entry then carries that height. */
  lemma SyncMarksExactly(list: Entries, btcHeight: nat, view: Chain, lndHeight: nat, c: Blocks, e: TxID, h: nat)
    requires Agrees(view, c) && MinedOnce(c, e.txId) && h > 0 && e.txId in c(h)
    requires IsFirst(Waiting(list), e) && Count(list, Text(e)) == 1
    ensures var after := Synced(list, btcHeight, view, lndHeight).0;
            var finds := btcHeight != lndHeight && Looks(btcHeight, lndHeight) && btcHeight <= h < Reach(view, btcHeight, lndHeight);
            && (Text(e) !in after <==> finds)
            && (finds ==> Text(e.(blockHeight := h)) in after)
  {
    var k := FirstIndex(TxIds(Waiting(list)), e.txId);
    assert Waiting(list)[k] in Waiting(list);
    WaitingMembers(list, e);
    if btcHeight != lndHeight && Looks(btcHeight, lndHeight) {
      var stop := Reach(view, btcHeight, lndHeight);
      var seen := Sightings(view, btcHeight, stop);
      var after := Scanned(list, view, btcHeight, lndHeight);
      SightingHeights(view, btcHeight, stop);
      HitsOfChain(view, c, btcHeight, stop, e.txId);
      ScanExactly(list, seen, Text(e));
      ScanExactly(list, seen, Text(e.(blockHeight := h)));
      if btcHeight <= h < stop {
        SightedAtBlock(view, c, btcHeight, stop, e.txId, h);
        HitsAtMember(seen, e.txId, h);
      }
      assert Text(e) in after <==> Text(e) in multiset(after);
      assert Text(e.(blockHeight := h)) in after <==> Text(e.(blockHeight := h)) in multiset(after);
    }
  }

  lemma {:induction false} HitsAtMember(seen: seq<Sighting>, txId: string, height: nat)
    ensures HitsAt(seen, txId, height) > 0 <==> Sighting(txId, height) in seen
  {
    if seen != [] {
      HitsAtMember(seen[..|seen| - 1], txId, height);
      assert seen == seen[..|seen| - 1] + [seen[|seen| - 1]];
    }
  }

  lemma {:induction false} SightedAtBlock(view: Chain, c: Blocks, start: nat, stop: nat, txId: string, h: nat)
    requires Agrees(view, c) && txId in c(h) && view(h).Some? && start <= h < stop
    ensures Sighting(txId, h) in Sightings(view, start, stop)
    decreases stop
  {
    if h == stop - 1 {
      var i :| 0 <= i < |c(h)| && c(h)[i] == txId;
      assert SightingsAt(view, h)[i] == Sighting(txId, h);
    } else {
      SightedAtBlock(view, c, start, stop - 1, txId, h);
    }
  }

  // ---- whole runs ----------------------------------------------------------

  /** The list and LND's height as last seen, and for the record what was broadcast and what
      was handed on as confirmed. */
  datatype Monitor = Monitor(list: Entries, btcHeight: nat, added: Entries, confirmed: Entries)

  datatype Event =
    | Broadcast(txId: string, anchorBtcAggRoot: string)
    | Sync(view: Chain, lndHeight: Option<nat>)
    | Confirm

  function Texts(txs: seq<TxID>): Entries
  {
    seq(|txs|, i requires 0 <= i < |txs| => Text(txs[i]))
  }

  function After(m: Monitor, e: Event): Monitor
  {
    match e
    case Broadcast(txId, root) =>
      var entry := Text(TxID(txId, 0, root));
      m.(list := m.list + [entry], added := m.added + [entry])
    case Sync(view, lndHeight) =>
      if lndHeight.None? then m
      else
        var (list, btcHeight) := Synced(m.list, m.btcHeight, view, lndHeight.value);
        m.(list := list, btcHeight := btcHeight)
    case Confirm =>
      m.(list := Unripe(m.list, m.btcHeight), confirmed := m.confirmed + Texts(Ripe(m.list, m.btcHeight)))
  }

  function AfterAll(m: Monitor, events: seq<Event>): Monitor
    decreases |events|
  {
    if events == [] then m else AfterAll(After(m, events[0]), events[1..])
  }

  const START := Monitor([], 0, [], [])

  lemma {:induction false} RipeMembers(list: Entries, btcHeight: nat, x: TxID)
    ensures x in Ripe(list, btcHeight) <==>
            Text(x) in list && x.blockHeight != 0 && btcHeight - x.blockHeight + 1 >= 6
  {
    if list != [] {
      RipeMembers(list[..|list| - 1], btcHeight, x);
      assert list == list[..|list| - 1] + [list[|list| - 1]];
    }
  }

  lemma {:induction false} UnripeConcat(a: Entries, b: Entries, btcHeight: nat)
    ensures Unripe(a + b, btcHeight) == Unripe(a, btcHeight) + Unripe(b, btcHeight)
  {
    if a == [] {
      assert a + b == b;
    } else {
      assert (a + b)[1..] == a[1..] + b;
      UnripeConcat(a[1..], b, btcHeight);
    }
  }

  lemma RipeStep(front: Entries, last: Stored<TxID>, btcHeight: nat)
    ensures IsRipe(last, btcHeight) ==>
              Unripe(front + [last], btcHeight) == Unripe(front, btcHeight)
              && Texts(Ripe(front + [last], btcHeight)) == Texts(Ripe(front, btcHeight)) + [last]
    ensures !IsRipe(last, btcHeight) ==>
              Unripe(front + [last], btcHeight) == Unripe(front, btcHeight) + [last]
              && Texts(Ripe(front + [last], btcHeight)) == Texts(Ripe(front, btcHeight))
  {
    UnripeConcat(front, [last], btcHeight);
    assert (front + [last])[..|front|] == front;
    assert [last][1..] == [];
  }

  /** A confirmation splits the list: each entry stays or is handed on. */
  lemma {:induction false} ConfirmSplits(list: Entries, btcHeight: nat)
    ensures multiset(Origins(list)) == multiset(Origins(Unripe(list, btcHeight))) + multiset(Origins(Texts(Ripe(list, btcHeight))))
  {
    if list != [] {
      var front, last := list[..|list| - 1], list[|list| - 1];
      assert list == front + [last];
      ConfirmSplits(front, btcHeight);
      RipeStep(front, last, btcHeight);
      OriginsConcat(front, [last]);
      OriginsConcat(Unripe(front, btcHeight), [last]);
      OriginsConcat(Texts(Ripe(front, btcHeight)), [last]);
    }
  }

  /** All entries there are, by origin. */
  function Held(m: Monitor): multiset<Stored<TxID>>
  {
    multiset(Origins(m.list)) + multiset(Origins(m.confirmed))
  }

  /** What a sync sees: nothing when it does not look. */
  function Seen(m: Monitor, view: Chain, lndHeight: nat): seq<Sighting>
  {
    if m.btcHeight == lndHeight || !Looks(m.btcHeight, lndHeight) then []
    else Sightings(view, m.btcHeight, Reach(view, m.btcHeight, lndHeight))
  }

  lemma SyncIsScan(m: Monitor, view: Chain, lndHeight: nat)
    ensures After(m, Sync(view, Some(lndHeight))).list == MarkedAll(m.list, Waiting(m.list), Seen(m, view, lndHeight))
    ensures Ascending(Seen(m, view, lndHeight))
  {
    SightingHeights(view, m.btcHeight, Reach(view, m.btcHeight, lndHeight));
  }

  lemma SyncHolds(m: Monitor, view: Chain, lndHeight: nat)
    ensures Held(m) <= Held(After(m, Sync(view, Some(lndHeight))))
    ensures Held(After(m, Sync(view, Some(lndHeight)))) == Held(m) <==> HitsFit(m.list, Seen(m, view, lndHeight))
  {
    var after := After(m, Sync(view, Some(lndHeight)));
    SyncIsScan(m, view, lndHeight);
    ScanKeepsEntries(m.list, Seen(m, view, lndHeight));
    assert after.confirmed == m.confirmed;
    Cancel(multiset(Origins(m.list)), multiset(Origins(after.list)), multiset(Origins(m.confirmed)));
  }

  lemma Cancel<T>(a: multiset<T>, b: multiset<T>, c: multiset<T>)
    ensures a + c == b + c <==> a == b
    ensures a <= b ==> a + c <= b + c
  {
    if a + c == b + c {
      forall x ensures a[x] == b[x] {
        assert (a + c)[x] == (b + c)[x];
      }
    }
  }

  lemma BroadcastHolds(m: Monitor, txId: string, root: string)
    ensures Held(After(m, Broadcast(txId, root))) == Held(m) + multiset{Text(TxID(txId, 0, root))}
  {
    var entry := Text(TxID(txId, 0, root));
    OriginsConcat(m.list, [entry]);
    assert Origins([entry]) == [entry];
  }

  lemma ConfirmHolds(m: Monitor)
    ensures Held(After(m, Confirm)) == Held(m)
  {
    ConfirmSplits(m.list, m.btcHeight);
    OriginsConcat(m.confirmed, Texts(Ripe(m.list, m.btcHeight)));
  }

  lemma BroadcastLosesNothing(m: Monitor, txId: string, root: string)
    requires multiset(m.added) <= Held(m)
    ensures multiset(After(m, Broadcast(txId, root)).added) <= Held(After(m, Broadcast(txId, root)))
  {
    var entry := Text(TxID(txId, 0, root));
    BroadcastHolds(m, txId, root);
    assert multiset(m.added + [entry]) == multiset(m.added) + multiset{entry};
  }

  lemma NoneAdded(m: Monitor, e: Event)
    requires !e.Broadcast?
    ensures After(m, e).added == m.added
  {
  }

  lemma StepLosesNothing(m: Monitor, e: Event)
    requires multiset(m.added) <= Held(m)
    ensures multiset(After(m, e).added) <= Held(After(m, e))
  {
    if e.Broadcast? {
      BroadcastLosesNothing(m, e.txId, e.anchorBtcAggRoot);
    } else {
      NoneAdded(m, e);
      if e.Confirm? {
        ConfirmHolds(m);
      } else if e.lndHeight.Some? {
        SyncHolds(m, e.view, e.lndHeight.value);
      }
    }
  }

  /** Over any run, with any blocks, no broadcast transaction is ever lost: it is listed or
      has been handed on, as often as it was broadcast or more. */
  lemma {:induction false} NeverLost(m: Monitor, events: seq<Event>)
    requires multiset(m.added) <= Held(m)
    ensures multiset(AfterAll(m, events).added) <= Held(AfterAll(m, events))
    decreases |events|
  {
    if events != [] {
      StepLosesNothing(m, events[0]);
      NeverLost(After(m, events[0]), events[1..]);
    }
  }

  // ---- the life of an entry ------------------------------------------------

  /** No transaction ID is mined twice. */
  ghost predicate NoneMinedTwice(c: Blocks)
  {
    forall txId :: MinedOnce(c, txId)
  }

  ghost predicate Honest(e: Event, c: Blocks)
  {
    e.Sync? ==> Agrees(e.view, c)
  }

  /** An entry waits, or carries the height of the block that holds it. */
  ghost predicate AtItsBlock(e: Stored<TxID>, c: Blocks)
  {
    e.Text? && (e.value.blockHeight == 0 || (e.value.blockHeight > 0 && e.value.txId in c(e.value.blockHeight)))
  }

  /** Every broadcast transaction is listed or handed on, exactly once for each time it was
      broadcast; it waits, or carries its block's height; what was handed on has a block. */
  ghost predicate Tracked(m: Monitor, c: Blocks)
  {
    && Held(m) == multiset(m.added)
    && (forall e :: e in m.list ==> AtItsBlock(e, c))
    && (forall e :: e in m.confirmed ==> AtItsBlock(e, c) && !IsWaiting(e))
  }

  lemma FirstIsListed(list: Entries, e: TxID)
    requires IsFirst(Waiting(list), e)
    ensures Text(e) in list && e.blockHeight == 0 && Count(list, Text(e)) >= 1
  {
    assert Waiting(list)[FirstIndex(TxIds(Waiting(list)), e.txId)] in Waiting(list);
    WaitingMembers(list, e);
    assert Text(e) in multiset(list);
  }

  lemma SightedInBlock(view: Chain, c: Blocks, height: nat, s: Sighting)
    requires Agrees(view, c) && s in SightingsAt(view, height)
    ensures s.txId in c(s.height)
  {
    var i :| 0 <= i < |c(height)| && s == Sighting(c(height)[i], height);
  }

  lemma {:induction false} SightingsAreMined(view: Chain, c: Blocks, start: nat, stop: nat, s: Sighting)
    requires Agrees(view, c) && s in Sightings(view, start, stop)
    ensures s.txId in c(s.height)
    decreases stop
  {
    if s in SightingsAt(view, stop - 1) {
      SightedInBlock(view, c, stop - 1, s);
    } else {
      SightingsAreMined(view, c, start, stop - 1, s);
    }
  }

  lemma {:induction false} MarkedAtBlocks(list: Entries, waiting: seq<TxID>, seen: seq<Sighting>, c: Blocks)
    requires forall e :: e in list ==> AtItsBlock(e, c)
    requires forall s :: s in seen ==> s.txId in c(s.height)
    ensures forall e :: e in MarkedAll(list, waiting, seen) ==> AtItsBlock(e, c)
  {
    if seen != [] {
      var before, s := seen[..|seen| - 1], seen[|seen| - 1];
      MarkedAtBlocks(list, waiting, before, c);
      var l, k := MarkedAll(list, waiting, before), FirstIndex(TxIds(waiting), s.txId);
      assert s in seen;
      if k >= 0 {
        DelFirstMultiset(l, Text(waiting[k]));
        forall e | e in Marked(l, waiting, s) ensures AtItsBlock(e, c) {
          if e in DelFirst(l, Text(waiting[k])) {
            assert e in multiset(DelFirst(l, Text(waiting[k]))) && e in multiset(l);
          }
        }
      }
    }
  }

  lemma HitsFitWhenMinedOnce(m: Monitor, view: Chain, lndHeight: nat, c: Blocks)
    requires NoneMinedTwice(c) && Agrees(view, c)
    ensures HitsFit(m.list, Seen(m, view, lndHeight))
  {
    forall e | IsFirst(Waiting(m.list), e) ensures Hits(Seen(m, view, lndHeight), e.txId) <= Count(m.list, Text(e)) {
      FirstIsListed(m.list, e);
      assert MinedOnce(c, e.txId);
      HitsOfChain(view, c, m.btcHeight, Reach(view, m.btcHeight, lndHeight), e.txId);
    }
  }

  lemma SyncTracks(m: Monitor, view: Chain, lndHeight: nat, c: Blocks)
    requires Tracked(m, c) && NoneMinedTwice(c) && Agrees(view, c)
    ensures Tracked(After(m, Sync(view, Some(lndHeight))), c)
  {
    HitsFitWhenMinedOnce(m, view, lndHeight, c);
    SyncHolds(m, view, lndHeight);
    SyncIsScan(m, view, lndHeight);
    forall s | s in Seen(m, view, lndHeight) ensures s.txId in c(s.height) {
      SightingsAreMined(view, c, m.btcHeight, Reach(view, m.btcHeight, lndHeight), s);
    }
    MarkedAtBlocks(m.list, Waiting(m.list), Seen(m, view, lndHeight), c);
  }

  lemma {:induction false} UnripeMembers(list: Entries, btcHeight: nat, e: Stored<TxID>)
    ensures e in Unripe(list, btcHeight) <==> e in list && !IsRipe(e, btcHeight)
  {
    if list != [] {
      UnripeMembers(list[1..], btcHeight, e);
      assert list == [list[0]] + list[1..];
    }
  }

  lemma ConfirmTracks(m: Monitor, c: Blocks)
    requires Tracked(m, c)
    ensures Tracked(After(m, Confirm), c)
  {
    ConfirmHolds(m);
    var after := After(m, Confirm);
    forall e | e in after.list ensures AtItsBlock(e, c) {
      UnripeMembers(m.list, m.btcHeight, e);
    }
    forall e | e in after.confirmed ensures AtItsBlock(e, c) && !IsWaiting(e) {
      if e !in m.confirmed {
        assert e in Texts(Ripe(m.list, m.btcHeight));
        var x :| x in Ripe(m.list, m.btcHeight) && e == Text(x);
        RipeMembers(m.list, m.btcHeight, x);
      }
    }
  }

  lemma StepTracks(m: Monitor, e: Event, c: Blocks)
    requires Tracked(m, c) && NoneMinedTwice(c) && Honest(e, c)
    ensures Tracked(After(m, e), c)
  {
    match e {
      case Broadcast(txId, root) => BroadcastHolds(m, txId, root);
      case Sync(view, lndHeight) => if lndHeight.Some? { SyncTracks(m, view, lndHeight.value, c); }
      case Confirm => ConfirmTracks(m, c);
    }
  }

  /** Over every run on a chain that mines no ID twice, each entry goes from height 0 to the
      height of its block to confirmation, and none is lost or doubled on the way. */
  lemma {:induction false} EntriesAreTracked(m: Monitor, events: seq<Event>, c: Blocks)
    requires Tracked(m, c) && NoneMinedTwice(c) && forall e :: e in events ==> Honest(e, c)
    ensures Tracked(AfterAll(m, events), c)
    decreases |events|
  {
    if events != [] {
      assert events[0] in events;
      StepTracks(m, events[0], c);
      EntriesAreTracked(After(m, events[0]), events[1..], c);
    }
  }

  /** Only what was broadcast is handed on. */
  lemma HandedOnWasAdded(m: Monitor, x: TxID)
    requires Held(m) == multiset(m.added) && Text(x) in m.confirmed
    ensures Text(x.(blockHeight := 0)) in m.added
  {
    OriginsHold(m.confirmed, Text(x));
    assert Origin(Text(x)) in multiset(Origins(m.confirmed));
    assert Origin(Text(x)) in multiset(m.added);
  }

  lemma {:induction false} OriginsHold(list: Entries, e: Stored<TxID>)
    requires e in list
    ensures Origin(e) in Origins(list)
  {
    var front, last := list[..|list| - 1], list[|list| - 1];
    assert list == front + [last];
    if e in front {
      OriginsHold(front, e);
    }
  }

  /** The Merkle roots of the delivered blocks are those of their transactions. */
  ghost predicate RootsHold(h: Hash, view: Chain)
  {
    forall n :: view(n).Some? && view(n).value.transactions != [] ==>
      Root(Twice(h), Duplicate, TxLeaves(view(n).value.transactions)) == view(n).value.merkleRoot
  }

  /** A transaction handed on in such a run has at least six confirmations, and its header
      proof is made whenever LND delivers its block and the block's root is right. */
  lemma HandedOnWithProof(m: Monitor, c: Blocks, view: Chain, h: Hash, x: TxID)
    requires Tracked(m, c) && Agrees(view, c) && x in Ripe(m.list, m.btcHeight)
    requires RootsHold(h, view)
    ensures x.blockHeight > 0 && x.txId in c(x.blockHeight) && m.btcHeight >= x.blockHeight + 5
    ensures Confirming(h, view, x).msg.Some? <==> view(x.blockHeight).Some?
  {
    RipeMembers(m.list, m.btcHeight, x);
    HeaderProofExists(h, BlockAt(view, x.blockHeight), x);
  }

  // ---- nothing is missed ---------------------------------------------------

  /** Each broadcast transaction has an ID of its own. */
  ghost predicate OwnIds(entries: multiset<Stored<TxID>>)
  {
    && (forall x, y :: x in entries && y in entries && x.Text? && y.Text? && x.value.txId == y.value.txId ==> x == y)
    && (forall x :: x in entries ==> entries[x] <= 1)
  }

  /** No entry waits for a block below the height the next sync starts at. */
  ghost predicate NoneMissed(m: Monitor, c: Blocks)
  {
    forall e, h: nat :: Text(e) in m.list && e.blockHeight == 0 && h > 0 && e.txId in c(h) ==> h >= m.btcHeight
  }

  /** A transaction is broadcast once, before its block is passed; no sync jumps 36 blocks. */
  ghost predicate Timely(m: Monitor, e: Event, c: Blocks)
  {
    match e
    case Broadcast(txId, root) =>
      && (forall x :: x in m.added && x.Text? ==> x.value.txId != txId)
      && (forall h: nat :: h > 0 && txId in c(h) ==> h >= m.btcHeight)
    case Sync(view, lndHeight) => lndHeight.Some? ==> lndHeight.value - m.btcHeight < 36
    case Confirm => true
  }

  ghost predicate TimelyRun(m: Monitor, events: seq<Event>, c: Blocks)
    decreases |events|
  {
    events == [] || (Timely(m, events[0], c) && TimelyRun(After(m, events[0]), events[1..], c))
  }

  lemma {:induction false} OriginListed(list: Entries, e: Stored<TxID>)
    requires e in list
    ensures Origin(e) in Origins(list)
  {
    if e == list[|list| - 1] {
    } else {
      assert list == list[..|list| - 1] + [list[|list| - 1]];
      OriginListed(list[..|list| - 1], e);
    }
  }

  lemma {:induction false} OriginCount(list: Entries, e: Stored<TxID>)
    requires IsWaiting(e)
    ensures multiset(list)[e] <= multiset(Origins(list))[e]
  {
    if list != [] {
      OriginCount(list[..|list| - 1], e);
      assert list == list[..|list| - 1] + [list[|list| - 1]];
    }
  }

  /** With IDs of their own, every waiting entry is the one found, and listed once. */
  lemma WaitingIsFirst(m: Monitor, c: Blocks, e: TxID)
    requires Tracked(m, c) && OwnIds(multiset(m.added)) && Text(e) in m.list && e.blockHeight == 0
    ensures IsFirst(Waiting(m.list), e) && Count(m.list, Text(e)) == 1
  {
    WaitingMembers(m.list, e);
    var waiting := Waiting(m.list);
    var i :| 0 <= i < |waiting| && waiting[i] == e;
    assert TxIds(waiting)[i] == e.txId;
    var first := waiting[FirstIndex(TxIds(waiting), e.txId)];
    assert first in waiting;
    WaitingMembers(m.list, first);
    OriginListed(m.list, Text(e));
    OriginListed(m.list, Text(first));
    assert Text(e) in Held(m) && Text(first) in Held(m);
    OriginCount(m.list, Text(e));
    assert Text(e) in multiset(m.list);
  }

  lemma SyncMissesNothing(m: Monitor, view: Chain, lndHeight: nat, c: Blocks)
    requires Tracked(m, c) && OwnIds(multiset(m.added)) && NoneMissed(m, c) && NoneMinedTwice(c)
    requires Agrees(view, c) && lndHeight - m.btcHeight < 36
    ensures NoneMissed(After(m, Sync(view, Some(lndHeight))), c)
  {
    var after, seen := After(m, Sync(view, Some(lndHeight))), Seen(m, view, lndHeight);
    SyncIsScan(m, view, lndHeight);
    forall e, h: nat | Text(e) in after.list && e.blockHeight == 0 && h > 0 && e.txId in c(h)
      ensures h >= after.btcHeight {
      ScanExactly(m.list, seen, Text(e));
      assert Text(e) in multiset(after.list);
      assert Text(e) in multiset(m.list);
      WaitingIsFirst(m, c, e);
      assert MinedOnce(c, e.txId);
      SyncMarksExactly(m.list, m.btcHeight, view, lndHeight, c, e, h);
    }
  }

  lemma StepMissesNothing(m: Monitor, e: Event, c: Blocks)
    requires Tracked(m, c) && OwnIds(multiset(m.added)) && NoneMissed(m, c) && NoneMinedTwice(c)
    requires Honest(e, c) && Timely(m, e, c)
    ensures NoneMissed(After(m, e), c) && OwnIds(multiset(After(m, e).added))
  {
    match e {
      case Broadcast(txId, root) => BroadcastOwnId(m.added, txId, root);
      case Sync(view, lndHeight) => if lndHeight.Some? { SyncMissesNothing(m, view, lndHeight.value, c); }
      case Confirm => ConfirmMissesNothing(m, c);
    }
  }

  lemma BroadcastOwnId(added: Entries, txId: string, root: string)
    requires OwnIds(multiset(added)) && forall x :: x in added && x.Text? ==> x.value.txId != txId
    ensures OwnIds(multiset(added + [Text(TxID(txId, 0, root))]))
  {
    var entry := Text(TxID(txId, 0, root));
    assert multiset(added + [entry]) == multiset(added) + multiset{entry};
    forall x | x in multiset(added) ensures x in added {
    }
  }

  lemma ConfirmMissesNothing(m: Monitor, c: Blocks)
    requires NoneMissed(m, c)
    ensures NoneMissed(After(m, Confirm), c)
  {
    forall x, h: nat | Text(x) in After(m, Confirm).list && x.blockHeight == 0 && h > 0 && x.txId in c(h)
      ensures h >= m.btcHeight {
      UnripeMembers(m.list, m.btcHeight, Text(x));
    }
  }

  /** Over a timely run no entry is left waiting for a block already passed. */
  lemma {:induction false} NothingIsMissed(m: Monitor, events: seq<Event>, c: Blocks)
    requires Tracked(m, c) && OwnIds(multiset(m.added)) && NoneMissed(m, c) && NoneMinedTwice(c)
    requires (forall e :: e in events ==> Honest(e, c)) && TimelyRun(m, events, c)
    ensures NoneMissed(AfterAll(m, events), c)
    decreases |events|
  {
    if events != [] {
      assert events[0] in events;
      StepMissesNothing(m, events[0], c);
      StepTracks(m, events[0], c);
      NothingIsMissed(After(m, events[0]), events[1..], c);
    }
  }

  /** An entry whose block was passed, say by a jump of 36 blocks, waits through every later
      step until LND's height falls back to that block. */
  lemma PassedEntryWaits(m: Monitor, e: Event, c: Blocks, x: TxID, h: nat)
    requires Tracked(m, c) && OwnIds(multiset(m.added)) && NoneMinedTwice(c) && Honest(e, c)
    requires Text(x) in m.list && x.blockHeight == 0 && 0 < h < m.btcHeight && x.txId in c(h)
    ensures Text(x) in After(m, e).list
    ensures After(m, e).btcHeight <= h <==> e.Sync? && e.lndHeight.Some? && e.lndHeight.value <= h
  {
    match e {
      case Broadcast(_, _) =>
      case Sync(view, lndHeight) =>
        if lndHeight.Some? {
          WaitingIsFirst(m, c, x);
          assert MinedOnce(c, x.txId);
          SyncMarksExactly(m.list, m.btcHeight, view, lndHeight.value, c, x, h);
        }
      case Confirm => UnripeMembers(m.list, m.btcHeight, Text(x));
    }
  }

  /** No transaction is broadcast twice, and no sync falls back to height h. */
  ghost predicate StaysAbove(m: Monitor, events: seq<Event>, h: nat)
    decreases |events|
  {
    events == [] ||
    (&& (events[0].Broadcast? ==> forall x :: x in m.added && x.Text? ==> x.value.txId != events[0].txId)
     && (events[0].Sync? && events[0].lndHeight.Some? ==> events[0].lndHeight.value > h)
     && StaysAbove(After(m, events[0]), events[1..], h))
  }

  /** ... so it waits for good while LND's height does not fall back that far. */
  lemma {:induction false} PassedEntryWaitsForGood(m: Monitor, events: seq<Event>, c: Blocks, x: TxID, h: nat)
    requires Tracked(m, c) && OwnIds(multiset(m.added)) && NoneMinedTwice(c)
    requires (forall e :: e in events ==> Honest(e, c)) && StaysAbove(m, events, h)
    requires Text(x) in m.list && x.blockHeight == 0 && 0 < h < m.btcHeight && x.txId in c(h)
    ensures Text(x) in AfterAll(m, events).list && AfterAll(m, events).btcHeight > h
    decreases |events|
  {
    if events != [] {
      assert events[0] in events;
      PassedEntryWaits(m, events[0], c, x, h);
      StepTracks(m, events[0], c);
      if events[0].Broadcast? {
        BroadcastOwnId(m.added, events[0].txId, events[0].anchorBtcAggRoot);
      }
      PassedEntryWaitsForGood(After(m, events[0]), events[1..], c, x, h);
    }
  }

  /** A sync that jumps 36 blocks passes every entry mined on the way. */
  lemma JumpPasses(m: Monitor, view: Chain, lndHeight: nat, x: TxID, h: nat)
    requires Text(x) in m.list && x.blockHeight == 0 && m.btcHeight <= h < lndHeight && lndHeight - m.btcHeight >= 36
    ensures var after := After(m, Sync(view, Some(lndHeight))); after.list == m.list && h < after.btcHeight
  {
  }
}
