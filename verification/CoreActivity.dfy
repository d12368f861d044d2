/** What the validation records of txratelimiter/validation.go remember, over whole runs, and which
    cores the election therefore counts as active. */
module CoreActivity {
  import opened ChainTypes
  import opened TokenBucket
  import opened RateLimiter
  import Election

  /** A checked transaction of a core with some key: the block it came in, whether its core was a
      validator, whether Validate accepted it and whether its limit had a token for it. */
  datatype Entry = Entry(tx: Incoming, height: int, validator: bool, accepted: bool, room: bool, moved: bool)

  /** The limit that counts a transaction. */
  function KindOf(txType: string): Kind
  {
    if txType == "CAL" then CalKind else if txType == "BTC-A" then BtcaKind else if txType == "BTC-C" then BtccKind else FeeKind
  }

  /** A full token is 60, by the block rate of every limit. */
  predicate HasRoom(l: RateLimit, height: int)
  {
    var filled := l.scaled + (height - l.lastCheck) * l.allowedRate;
    (if filled > l.allowedRate * l.perBlocks then l.allowedRate * l.perBlocks else filled) >= 60
  }

  /** The core's Lightning identity is known, and is not that of the meta. */
  predicate Moves(s: Limiter, tx: Incoming)
  {
    tx.coreId in s.lnUris && s.lnUris[tx.coreId] != tx.lnId
  }

  function EntriesAt(s: Limiter, e: Event, key: string): seq<Entry>
  {
    if e.Check? && e.incoming.Some? && e.incoming.value.coreId in s.coreKeys && s.coreKeys[e.incoming.value.coreId] == key then
      var tx := e.incoming.value;
      [Entry(tx, s.height, tx.coreId in s.validators, Accepts(s, Some(tx)), HasRoom(LimitUnder(s, key, KindOf(tx.txType)), s.height), Moves(s, tx))]
    else []
  }

  /** The checks that concern a key. */
  function EntriesOf(events: seq<Event>, key: string): seq<Entry>
  {
    if events == [] then []
    else EntriesOf(events[..|events| - 1], key) + EntriesAt(AfterAll(START, events[..|events| - 1]), events[|events| - 1], key)
  }

  predicate IsCal(e: Entry) { e.tx.txType == "CAL" }
  predicate IsRoomyCal(e: Entry) { e.tx.txType == "CAL" && e.room }
  predicate IsCrampedCal(e: Entry) { e.tx.txType == "CAL" && !e.room }
  predicate IsJwk(e: Entry) { e.tx.txType == "JWK" }
  predicate IsMovedJwk(e: Entry) { e.tx.txType == "JWK" && e.moved }
  predicate IsTakenBtca(e: Entry) { e.tx.txType == "BTC-A" && e.accepted }
  predicate IsTakenFee(e: Entry) { e.tx.txType == "FEE" && e.accepted }
  predicate IsCountedBtcc(e: Entry) { e.tx.txType == "BTC-C" && e.room && !e.validator }

  /** The height of the last entry of a kind, 0 before the first. */
  function LastHeight(entries: seq<Entry>, p: Entry -> bool): int
  {
    if entries == [] then 0
    else
      var last := entries[|entries| - 1];
      if p(last) then last.height else LastHeight(entries[..|entries| - 1], p)
  }

  function CountOf(entries: seq<Entry>, p: Entry -> bool): nat
  {
    if entries == [] then 0 else CountOf(entries[..|entries| - 1], p) + if p(entries[|entries| - 1]) then 1 else 0
  }

  /** What a record remembers of the checks: the last CAL, the last BTC-A and FEE that were accepted,
      the last BTC-C of a core that was no validator with a token left, and the counts. */
  ghost predicate Remembers(r: TxValidation, entries: seq<Entry>)
  {
    && r.lastCalTxHeight == LastHeight(entries, IsCal)
    && r.lastBtcaTxHeight == LastHeight(entries, IsTakenBtca)
    && r.lastFeeTxHeight == LastHeight(entries, IsTakenFee)
    && r.lastBtccTxHeight == LastHeight(entries, IsCountedBtcc)
    && r.lastJwkTxHeight == LastHeight(entries, IsJwk)
    && r.calValidationSuccess == CountOf(entries, IsCal) + CountOf(entries, IsRoomyCal)
    && r.calValidationFailures == CountOf(entries, IsCrampedCal)
    && r.jwkSubmissions == CountOf(entries, IsMovedJwk)
  }

  function RecordUnder(s: Limiter, key: string): TxValidation
  {
    if key in s.records then s.records[key] else NEW_TX_VALIDATION
  }

  lemma OneMoreEntry(entries: seq<Entry>, e: Entry, p: Entry -> bool)
    ensures LastHeight(entries + [e], p) == (if p(e) then e.height else LastHeight(entries, p))
    ensures CountOf(entries + [e], p) == CountOf(entries, p) + if p(e) then 1 else 0
  {
    assert (entries + [e])[..|entries|] == entries;
  }

  lemma RememberedEntry(r: TxValidation, after: TxValidation, entries: seq<Entry>, e: Entry)
    requires Remembers(r, entries)
    requires after.lastCalTxHeight == (if IsCal(e) then e.height else r.lastCalTxHeight)
    requires after.lastBtcaTxHeight == (if IsTakenBtca(e) then e.height else r.lastBtcaTxHeight)
    requires after.lastFeeTxHeight == (if IsTakenFee(e) then e.height else r.lastFeeTxHeight)
    requires after.lastBtccTxHeight == (if IsCountedBtcc(e) then e.height else r.lastBtccTxHeight)
    requires after.lastJwkTxHeight == (if IsJwk(e) then e.height else r.lastJwkTxHeight)
    requires after.calValidationSuccess == r.calValidationSuccess + (if IsCal(e) then 1 else 0) + (if IsRoomyCal(e) then 1 else 0)
    requires after.calValidationFailures == r.calValidationFailures + (if IsCrampedCal(e) then 1 else 0)
    requires after.jwkSubmissions == r.jwkSubmissions + (if IsMovedJwk(e) then 1 else 0)
    ensures Remembers(after, entries + [e])
  {
    OneMoreEntry(entries, e, IsCal);
    OneMoreEntry(entries, e, IsRoomyCal);
    OneMoreEntry(entries, e, IsCrampedCal);
    OneMoreEntry(entries, e, IsJwk);
    OneMoreEntry(entries, e, IsMovedJwk);
    OneMoreEntry(entries, e, IsTakenBtca);
    OneMoreEntry(entries, e, IsTakenFee);
    OneMoreEntry(entries, e, IsCountedBtcc);
  }

  lemma RoomIsToken(l: RateLimit, height: int)
    requires l.perBlocks == 60
    ensures HasRoom(l, height) <==> !IsHabitualViolator(Refilled(l, height))
  {
  }

  lemma CheckedRemembers(r: TxValidation, s: Limiter, tx: Incoming, entries: seq<Entry>, e: Entry)
    requires Remembers(r, entries) && e.tx == tx && e.height == s.height && e.accepted == Checked(r, s, tx).validated
    requires e.validator == (tx.coreId in s.validators) && e.moved == Moves(s, tx)
    requires e.room == !IsHabitualViolator(Refilled(LimitOf(r, KindOf(tx.txType)), s.height))
    ensures Remembers(Checked(r, s, tx).record, entries + [e])
  {
    RememberedEntry(r, Checked(r, s, tx).record, entries, e);
  }

  lemma CheckRemembers(s: Limiter, tx: Incoming, entries: seq<Entry>)
    requires RecordsComplete(s) && tx.coreId in s.coreKeys && Remembers(s.records[s.coreKeys[tx.coreId]], entries)
    ensures var key := s.coreKeys[tx.coreId];
            Remembers(AfterCheck(s, Some(tx)).records[key], entries + EntriesAt(s, Check(Some(tx)), key))
  {
    var key := s.coreKeys[tx.coreId];
    var r, kind := s.records[key], KindOf(tx.txType);
    assert RatesPositive(r);
    assert LimitOf(r, kind).perBlocks == LimitOf(NEW_TX_VALIDATION, kind).perBlocks;
    RoomIsToken(LimitOf(r, kind), s.height);
    CheckedRemembers(r, s, tx, entries, EntriesAt(s, Check(Some(tx)), key)[0]);
  }

  lemma EventRemembers(s: Limiter, e: Event, key: string, entries: seq<Entry>)
    requires RecordsComplete(s) && Remembers(RecordUnder(s, key), entries)
    ensures Remembers(RecordUnder(After(s, e), key), entries + EntriesAt(s, e, key))
  {
    if EntriesAt(s, e, key) == [] {
      assert entries + [] == entries;
    } else {
      CheckRemembers(s, e.incoming.value, entries);
    }
  }

  /** Over every run from the start each record remembers exactly the checks of cores with its key,
      whatever other cores, declarations and anchor outcomes come between. */
  lemma {:induction false} RecordsRemember(events: seq<Event>, key: string)
    ensures Remembers(RecordUnder(AfterAll(START, events), key), EntriesOf(events, key))
  {
    if events != [] {
      var front := events[..|events| - 1];
      RecordsRemember(front, key);
      RunKeepsRecords(START, front);
      EventRemembers(AfterAll(START, front), events[|events| - 1], key, EntriesOf(front, key));
    }
  }

  // ---- declarations and outcomes -------------------------------------------

  /** What an identity declares of a core. */
  predicate Declares(e: Event, id: string)
  {
    e.Declare? && e.coreId == id && e.key.Some?
  }

  /** The key declared last by a core, and the Lightning identity declared last together with a key. */
  function LastKey(events: seq<Event>, id: string): Option<string>
  {
    if events == [] then None
    else
      var last := events[|events| - 1];
      if Declares(last, id) then last.key else LastKey(events[..|events| - 1], id)
  }

  function LastIdentity(events: seq<Event>, id: string): Option<LnIdentity>
  {
    if events == [] then None
    else
      var last := events[|events| - 1];
      if Declares(last, id) && last.lnId.Some? then last.lnId else LastIdentity(events[..|events| - 1], id)
  }

  /** Over every run each core has the key and the Lightning identity it declared last. */
  lemma {:induction false} DeclarationsRemember(events: seq<Event>, id: string)
    ensures var s := AfterAll(START, events);
            && (id in s.coreKeys <==> LastKey(events, id).Some?) && (id in s.coreKeys ==> s.coreKeys[id] == LastKey(events, id).value)
            && (id in s.lnUris <==> LastIdentity(events, id).Some?) && (id in s.lnUris ==> s.lnUris[id] == LastIdentity(events, id).value)
  {
    if events != [] {
      DeclarationsRemember(events[..|events| - 1], id);
    }
  }

  /** The outcomes of a key's anchors that were reported. */
  function OutcomesOf(events: seq<Event>, key: string, confirmed: bool): nat
  {
    if events == [] then 0
    else
      var front, last := events[..|events| - 1], events[|events| - 1];
      OutcomesOf(front, key, confirmed)
      + (if last.AnchorOutcome? && last.confirmed == confirmed && LastKey(front, last.coreId) == Some(key) then 1 else 0)
  }

  /** Over every run a record counts the confirmed and the failed anchors of cores with its key. */
  lemma {:induction false} OutcomesRemember(events: seq<Event>, key: string)
    ensures var r := RecordUnder(AfterAll(START, events), key);
            r.confirmedAnchors == OutcomesOf(events, key, true) && r.failedAnchors == OutcomesOf(events, key, false)
  {
    if events != [] {
      var front, last := events[..|events| - 1], events[|events| - 1];
      OutcomesRemember(front, key);
      RunKeepsRecords(START, front);
      if last.AnchorOutcome? {
        DeclarationsRemember(front, last.coreId);
      }
      EventCountsOutcome(AfterAll(START, front), last, key);
    }
  }

  lemma EventCountsOutcome(s: Limiter, e: Event, key: string)
    requires RecordsComplete(s)
    ensures var r, after := RecordUnder(s, key), RecordUnder(After(s, e), key);
            var counts := e.AnchorOutcome? && e.coreId in s.coreKeys && s.coreKeys[e.coreId] == key;
            && after.confirmedAnchors == r.confirmedAnchors + (if counts && e.confirmed then 1 else 0)
            && after.failedAnchors == r.failedAnchors + (if counts && !e.confirmed then 1 else 0)
  {
  }

  // ---- active cores --------------------------------------------------------

  /** The election's view of the limiter's state. */
  function ViewOf(s: Limiter, blockHash: string): Election.ChainView
  {
    Election.ChainView(s.coreKeys, s.records, s.height, blockHash)
  }

  predicate CountsAsActive(e: Entry)
  {
    IsCal(e) || IsTakenBtca(e) || IsTakenFee(e) || IsCountedBtcc(e)
  }

  ghost predicate SeenSince(entries: seq<Entry>, p: Entry -> bool, since: int)
  {
    exists e :: e in entries && p(e) && e.height > since
  }

  lemma {:induction false} HeightsOfEntries(events: seq<Event>, key: string)
    ensures AfterAll(START, events).height >= 0
    ensures forall e :: e in EntriesOf(events, key) ==> 0 <= e.height <= AfterAll(START, events).height
    ensures forall i, j :: 0 <= i < j < |EntriesOf(events, key)| ==> EntriesOf(events, key)[i].height <= EntriesOf(events, key)[j].height
  {
    if events != [] {
      HeightsOfEntries(events[..|events| - 1], key);
    }
  }

  lemma {:induction false} LastIsHighest(entries: seq<Entry>, p: Entry -> bool, since: int)
    requires since >= 0 && forall i, j :: 0 <= i < j < |entries| ==> entries[i].height <= entries[j].height
    ensures LastHeight(entries, p) > since <==> SeenSince(entries, p, since)
  {
    if entries != [] {
      var front, last := entries[..|entries| - 1], entries[|entries| - 1];
      assert entries == front + [last];
      LastIsHighest(front, p, since);
      if p(last) {
        if SeenSince(entries, p, since) {
          var e :| e in entries && p(e) && e.height > since;
          var i :| 0 <= i < |entries| && entries[i] == e;
          assert entries[i].height <= last.height || i == |entries| - 1;
        }
        assert last in entries;
      } else if SeenSince(front, p, since) {
        var e :| e in front && p(e) && e.height > since;
        assert e in entries;
      }
    }
  }

  lemma SeenInOneWay(entries: seq<Entry>, since: int)
    ensures SeenSince(entries, CountsAsActive, since) <==>
            SeenSince(entries, IsCal, since) || SeenSince(entries, IsTakenBtca, since) || SeenSince(entries, IsTakenFee, since)
            || SeenSince(entries, IsCountedBtcc, since)
  {
    if SeenSince(entries, CountsAsActive, since) {
      var e :| e in entries && CountsAsActive(e) && e.height > since;
      assert IsCal(e) || IsTakenBtca(e) || IsTakenFee(e) || IsCountedBtcc(e);
    }
  }

  /** Whether a record that remembers these checks counts as active. */
  lemma ActiveRecord(r: TxValidation, entries: seq<Entry>, since: int)
    requires Remembers(r, entries) && forall e :: e in entries ==> e.height >= 0
    requires forall i, j :: 0 <= i < j < |entries| ==> entries[i].height <= entries[j].height
    ensures Election.ActiveSince(r, since) <==> since < 0 || SeenSince(entries, CountsAsActive, since)
  {
    if since >= 0 {
      LastIsHighest(entries, IsCal, since);
      LastIsHighest(entries, IsTakenBtca, since);
      LastIsHighest(entries, IsTakenFee, since);
      LastIsHighest(entries, IsCountedBtcc, since);
      SeenInOneWay(entries, since);
    } else {
      EarlyIsActive(entries, since);
    }
  }

  /** After any run the election counts a declared core as active exactly when one of its checks in the
      last 128 blocks was a CAL, an accepted BTC-A or FEE, or a counted BTC-C; and in the first 128
      blocks always, since a record starts at height 0. */
  lemma ActiveExactly(events: seq<Event>, id: string, blockHash: string)
    requires id in AfterAll(START, events).coreKeys
    ensures var s := AfterAll(START, events);
            Election.IsActive(ViewOf(s, blockHash), 128, id) <==>
              s.height < 128 || SeenSince(EntriesOf(events, s.coreKeys[id]), CountsAsActive, s.height - 128)
  {
    var s := AfterAll(START, events);
    var key := s.coreKeys[id];
    RunKeepsRecords(START, events);
    RecordsRemember(events, key);
    HeightsOfEntries(events, key);
    ActiveRecord(s.records[key], EntriesOf(events, key), s.height - 128);
  }

  lemma {:induction false} EarlyIsActive(entries: seq<Entry>, since: int)
    requires since < 0 && forall e :: e in entries ==> e.height >= 0
    ensures LastHeight(entries, IsCal) > since
  {
    if entries != [] {
      assert entries[|entries| - 1] in entries;
      EarlyIsActive(entries[..|entries| - 1], since);
    }
  }
}
