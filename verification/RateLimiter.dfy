/** Validation records and the checks made on them: txratelimiter/validation.go, and
    SetIdentity of abci/stakingidentity.go, which creates a record for each declared key. */
module RateLimiter {
  import opened ChainTypes
  import opened TokenBucket

  datatype TxValidation = TxValidation(
    lastJwkTxHeight: int, jwkSubmissions: int,
    lastCalTxHeight: int, calAllowedRate: RateLimit, calValidationSuccess: int, calValidationFailures: int,
    lastBtcaTxHeight: int, confirmedAnchors: int, failedAnchors: int, btcaAllowedRate: RateLimit,
    lastBtccTxHeight: int, btccAllowedRate: RateLimit,
    lastFeeTxHeight: int, feeAllowedRate: RateLimit)

  datatype LnIdentity = LnIdentity(peer: string, requiredChanAmt: int)

  /** A decoded transaction whose signature, where one is asked for, is right; its data as a
      number, its meta as a Lightning identity, and whether that parsed. */
  datatype Incoming = Incoming(txType: string, coreId: string, amount: Option<int>, lnId: LnIdentity, lnIdOk: bool)

  /** The part of the state the limiter reads and writes. Keys are held as the hex of their
      marshalled form, by which records are kept. */
  datatype Limiter = Limiter(
    coreKeys: map<string, string>, records: map<string, TxValidation>, lnUris: map<string, LnIdentity>,
    height: int, validators: seq<string>)

  datatype Verdict = Verdict(record: TxValidation, validated: bool, failed: bool)

  const NEW_TX_VALIDATION := TxValidation(
    0, 0,
    0, RateLimit(80, 60, 0, 0), 0, 0,
    0, 0, 0, RateLimit(2, 60, 0, 0),
    0, RateLimit(1, 60, 0, 0),
    0, RateLimit(4, 60, 0, 0))

  /** What Go reads for a record that is not there. */
  const ZERO_TX_VALIDATION := TxValidation(
    0, 0,
    0, RateLimit(0, 0, 0, 0), 0, 0,
    0, 0, 0, RateLimit(0, 0, 0, 0),
    0, RateLimit(0, 0, 0, 0),
    0, RateLimit(0, 0, 0, 0))

  // ---- the limits of a record ----------------------------------------------

  datatype Kind = CalKind | BtcaKind | BtccKind | FeeKind

  function LimitOf(r: TxValidation, kind: Kind): RateLimit
  {
    match kind
    case CalKind => r.calAllowedRate
    case BtcaKind => r.btcaAllowedRate
    case BtccKind => r.btccAllowedRate
    case FeeKind => r.feeAllowedRate
  }

  /** What a transaction is to a limit: nothing to most, to one of them an attempt. */
  function AttemptsBy(tx: Incoming, s: Limiter, kind: Kind): seq<Attempt>
  {
    if kind.CalKind? && tx.txType == "CAL" then [Attempt(s.height, true, false)]
    else if kind.BtcaKind? && tx.txType == "BTC-A" then [Attempt(s.height, true, tx.coreId in s.validators)]
    else if kind.BtccKind? && tx.txType == "BTC-C" then [Attempt(s.height, tx.coreId !in s.validators, false)]
    else if kind.FeeKind? && tx.txType == "FEE" then [Attempt(s.height, tx.amount.Some? && tx.amount.value >= 50, false)]
    else []
  }

  // ---- the check -----------------------------------------------------------

  /** Validate's switch, on the record of a core that has declared its keys. */
  function Checked(r: TxValidation, s: Limiter, tx: Incoming): Verdict
  {
    match tx.txType
    case "VAL" => Verdict(r, true, false)
    case "BTC-E" => Verdict(r, true, false)
    case "CAL" =>
      var seen := r.(calValidationSuccess := r.calValidationSuccess + 1, lastCalTxHeight := s.height,
                     calAllowedRate := Refilled(r.calAllowedRate, s.height));
      Verdict(if IsHabitualViolator(seen.calAllowedRate)
              then seen.(calValidationFailures := seen.calValidationFailures + 1)
              else seen.(calAllowedRate := Spent(seen.calAllowedRate), calValidationSuccess := seen.calValidationSuccess + 1),
              true, false)
    case "BTC-A" =>
      var seen := r.(btcaAllowedRate := Refilled(r.btcaAllowedRate, s.height));
      if IsHabitualViolator(seen.btcaAllowedRate) && tx.coreId !in s.validators then Verdict(seen, false, false)
      else Verdict(seen.(btcaAllowedRate := Spent(seen.btcaAllowedRate), lastBtcaTxHeight := s.height), true, false)
    case "BTC-C" =>
      var seen := r.(btccAllowedRate := Refilled(r.btccAllowedRate, s.height));
      Verdict(if IsHabitualViolator(seen.btccAllowedRate) || tx.coreId in s.validators then seen
              else seen.(btccAllowedRate := Spent(seen.btccAllowedRate), lastBtccTxHeight := s.height),
              true, false)
    case "FEE" =>
      var seen := r.(feeAllowedRate := Refilled(r.feeAllowedRate, s.height));
      if IsHabitualViolator(seen.feeAllowedRate) || tx.amount.None? || tx.amount.value < 50 then Verdict(seen, false, false)
      else Verdict(seen.(feeAllowedRate := Spent(seen.feeAllowedRate), lastFeeTxHeight := s.height), true, false)
    case "JWK" =>
      var known := tx.coreId in s.lnUris;
      var moved := known && s.lnUris[tx.coreId] != tx.lnId;
      Verdict(r.(jwkSubmissions := r.jwkSubmissions + (if moved then 1 else 0), lastJwkTxHeight := s.height),
              true, known && !tx.lnIdOk)
    case _ => Verdict(r, false, false)
  }

  /** None for what does not decode or is not signed by a declared core. */
  function AfterCheck(s: Limiter, incoming: Option<Incoming>): Limiter
  {
    if incoming.None? || incoming.value.coreId !in s.coreKeys || s.coreKeys[incoming.value.coreId] !in s.records then s
    else
      var key := s.coreKeys[incoming.value.coreId];
      s.(records := s.records[key := Checked(s.records[key], s, incoming.value).record])
  }

  /** Whether the check accepts; of an undeclared core only a JWK. */
  predicate Accepts(s: Limiter, incoming: Option<Incoming>)
  {
    incoming.Some? &&
    if incoming.value.coreId !in s.coreKeys then incoming.value.txType == "JWK"
    else
      var key := s.coreKeys[incoming.value.coreId];
      key in s.records && Checked(s.records[key], s, incoming.value).validated
  }

  /** Whether the check returns an error. */
  predicate Fails(s: Limiter, incoming: Option<Incoming>)
  {
    incoming.None? ||
    if incoming.value.coreId !in s.coreKeys then incoming.value.txType != "JWK"
    else
      var key := s.coreKeys[incoming.value.coreId];
      key in s.records && Checked(s.records[key], s, incoming.value).failed
  }

  /** SetIdentity: the key in hex, None when the data is no JWK; the identity when its peer is
      a Lightning URI. */
  function AfterDeclare(s: Limiter, coreId: string, key: Option<string>, lnId: Option<LnIdentity>): Limiter
  {
    if key.None? then s
    else
      s.(coreKeys := s.coreKeys[coreId := key.value],
         records := s.records[key.value := if key.value in s.records then s.records[key.value] else NEW_TX_VALIDATION],
         lnUris := if lnId.Some? then s.lnUris[coreId := lnId.value] else s.lnUris)
  }

  function AfterAnchor(s: Limiter, coreId: string, confirmed: bool): Limiter
  {
    if coreId !in s.coreKeys then s
    else
      var key := s.coreKeys[coreId];
      var r := if key in s.records then s.records[key] else ZERO_TX_VALIDATION;
      s.(records := s.records[key := if confirmed then r.(confirmedAnchors := r.confirmedAnchors + 1)
                                     else r.(failedAnchors := r.failedAnchors + 1)])
  }

  // ---- records are complete ------------------------------------------------

  ghost predicate RatesPositive(r: TxValidation)
  {
    forall kind :: LimitOf(r, kind).allowedRate == LimitOf(NEW_TX_VALIDATION, kind).allowedRate
                   && LimitOf(r, kind).perBlocks == LimitOf(NEW_TX_VALIDATION, kind).perBlocks
  }

  /** Every declared key has a record, and records keep the rates they were made with. */
  ghost predicate RecordsComplete(s: Limiter)
  {
    && (forall id :: id in s.coreKeys ==> s.coreKeys[id] in s.records)
    && (forall key :: key in s.records ==> RatesPositive(s.records[key]))
  }

  class TxRateLimiter {
    var coreKeys: map<string, string>
    var records: map<string, TxValidation>
    var lnUris: map<string, LnIdentity>
    var height: int
    var validators: seq<string>

    constructor ()
      ensures View() == Limiter(map[], map[], map[], 0, []) && RecordsComplete(View())
    {
      coreKeys, records, lnUris, height, validators := map[], map[], map[], 0, [];
    }

    function View(): Limiter
      reads this
    {
      Limiter(coreKeys, records, lnUris, height, validators)
    }

    method IsValidator(id: string) returns (amValidator: bool)
      ensures amValidator <==> id in validators
    {
      for i := 0 to |validators|
        invariant id !in validators[..i]
      {
        if validators[i] == id {
          return true;
        }
      }
      return false;
    }

    /** The record of a declared core; a missing one reads as zero, but with complete records
        none is missing. */
    method GetValidationRecord(coreId: string) returns (pubKeyHex: string, record: TxValidation, ok: bool)
      ensures ok <==> coreId in coreKeys
      ensures ok ==> pubKeyHex == coreKeys[coreId]
                     && record == if pubKeyHex in records then records[pubKeyHex] else ZERO_TX_VALIDATION
      ensures ok && RecordsComplete(View()) ==> pubKeyHex in records
      ensures !ok ==> pubKeyHex == "" && record == NEW_TX_VALIDATION
    {
      if coreId !in coreKeys {
        return "", NEW_TX_VALIDATION, false;
      }
      pubKeyHex, ok := coreKeys[coreId], true;
      record := if pubKeyHex in records then records[pubKeyHex] else ZERO_TX_VALIDATION;
    }

    method SetValidationRecord(coreId: string, record: TxValidation) returns (ok: bool)
      modifies this`records
      ensures ok <==> coreId in coreKeys
      ensures records == if ok then old(records)[coreKeys[coreId] := record] else old(records)
    {
      if coreId !in coreKeys {
        return false;
      }
      records := records[coreKeys[coreId] := record];
      return true;
    }

    method Validate(incoming: Option<Incoming>) returns (validated: bool, failed: bool)
      requires RecordsComplete(View())
      modifies this`records
      ensures View() == AfterCheck(old(View()), incoming)
      ensures validated == Accepts(old(View()), incoming) && failed == Fails(old(View()), incoming)
    {
      if incoming.None? {
        return false, true;
      }
      var tx := incoming.value;
      if tx.coreId !in coreKeys {
        return tx.txType == "JWK", tx.txType != "JWK";
      }
      var pubKeyHex, record, ok := GetValidationRecord(tx.coreId);
      ghost var verdict := Checked(record, View(), tx);
      validated, failed := false, false;
      var amValidator := IsValidator(tx.coreId);
      match tx.txType {
        case "VAL" => validated := true;
        case "CAL" =>
          validated := true;
          record := record.(calValidationSuccess := record.calValidationSuccess + 1, lastCalTxHeight := height);
          record := record.(calAllowedRate := RateLimitUpdate(height, record.calAllowedRate));
          if !IsHabitualViolator(record.calAllowedRate) {
            record := record.(calAllowedRate := UpdateAcceptTx(record.calAllowedRate));
            record := record.(calValidationSuccess := record.calValidationSuccess + 1);
          } else {
            record := record.(calValidationFailures := record.calValidationFailures + 1);
          }
        case "BTC-E" => validated := true;
        case "BTC-A" =>
          record := record.(btcaAllowedRate := RateLimitUpdate(height, record.btcaAllowedRate));
          if !IsHabitualViolator(record.btcaAllowedRate) || amValidator {
            validated := true;
            record := record.(btcaAllowedRate := UpdateAcceptTx(record.btcaAllowedRate), lastBtcaTxHeight := height);
          }
        case "BTC-C" =>
          validated := true;
          record := record.(btccAllowedRate := RateLimitUpdate(height, record.btccAllowedRate));
          if !(IsHabitualViolator(record.btccAllowedRate) || amValidator) {
            record := record.(btccAllowedRate := UpdateAcceptTx(record.btccAllowedRate), lastBtccTxHeight := height);
          }
        case "FEE" =>
          record := record.(feeAllowedRate := RateLimitUpdate(height, record.feeAllowedRate));
          if !IsHabitualViolator(record.feeAllowedRate) && tx.amount.Some? && tx.amount.value >= 50 {
            validated := true;
            record := record.(feeAllowedRate := UpdateAcceptTx(record.feeAllowedRate), lastFeeTxHeight := height);
          }
        case "JWK" =>
          if tx.coreId in lnUris {
            failed := !tx.lnIdOk;
            if lnUris[tx.coreId] != tx.lnId {
              record := record.(jwkSubmissions := record.jwkSubmissions + 1);
            }
          }
          record := record.(lastJwkTxHeight := height);
          validated := true;
        case _ =>
      }
      assert Verdict(record, validated, failed) == verdict;
      records := records[pubKeyHex := record];
    }

    method IncrementAnchor(coreId: string, confirmed: bool) returns (ok: bool)
      modifies this`records
      ensures View() == AfterAnchor(old(View()), coreId, confirmed)
      ensures ok <==> coreId in coreKeys
    {
      var pubKeyHex, record, found := GetValidationRecord(coreId);
      if !found {
        return false;
      }
      record := if confirmed then record.(confirmedAnchors := record.confirmedAnchors + 1)
                else record.(failedAnchors := record.failedAnchors + 1);
      ok := SetValidationRecord(coreId, record);
    }

    method SetIdentity(coreId: string, key: Option<string>, lnId: Option<LnIdentity>) returns (ok: bool)
      modifies this`coreKeys, this`records, this`lnUris
      ensures View() == AfterDeclare(old(View()), coreId, key, lnId)
      ensures ok <==> key.Some?
    {
      if key.None? {
        return false;
      }
      coreKeys := coreKeys[coreId := key.value];
      if key.value !in records {
        records := records[key.value := NEW_TX_VALIDATION];
      }
      assert records == old(records)[key.value := records[key.value]];
      if lnId.Some? {
        lnUris := lnUris[coreId := lnId.value];
      }
      ok := true;
    }
  }

  function RateLimitUpdate(currHeight: int, limit: RateLimit): (r: RateLimit)
    ensures r == Refilled(limit, currHeight)
    ensures r.scaled <= limit.allowedRate * limit.perBlocks
  {
    var delta := currHeight - limit.lastCheck;
    var updated := limit.(lastCheck := currHeight, scaled := limit.scaled + delta * limit.allowedRate);
    if updated.scaled > limit.allowedRate * limit.perBlocks then updated.(scaled := limit.allowedRate * limit.perBlocks) else updated
  }

  function UpdateAcceptTx(limit: RateLimit): RateLimit
  {
    Spent(limit)
  }

  // ---- a record's limits are buckets ---------------------------------------

  /** A check moves each limit of the record by the attempts the transaction is to it. */
  lemma CheckMovesLimits(r: TxValidation, s: Limiter, tx: Incoming, kind: Kind)
    ensures LimitOf(Checked(r, s, tx).record, kind) == AfterAttempts(LimitOf(r, kind), AttemptsBy(tx, s, kind))
  {
    var attempts := AttemptsBy(tx, s, kind);
    if attempts != [] {
      assert attempts[..|attempts| - 1] == [];
      assert AfterAttempts(LimitOf(r, kind), attempts) == AfterAttempt(LimitOf(r, kind), attempts[0]);
    }
  }

  lemma CheckKeepsRates(r: TxValidation, s: Limiter, tx: Incoming)
    requires RatesPositive(r)
    ensures RatesPositive(Checked(r, s, tx).record)
  {
    forall kind
      ensures LimitOf(Checked(r, s, tx).record, kind).allowedRate == LimitOf(r, kind).allowedRate
      ensures LimitOf(Checked(r, s, tx).record, kind).perBlocks == LimitOf(r, kind).perBlocks {
      CheckMovesLimits(r, s, tx, kind);
      LimitStays(LimitOf(r, kind), AttemptsBy(tx, s, kind));
    }
  }

  // ---- runs ----------------------------------------------------------------

  datatype Event =
    | Check(incoming: Option<Incoming>)
    | Declare(coreId: string, key: Option<string>, lnId: Option<LnIdentity>)
    | AnchorOutcome(coreId: string, confirmed: bool)
    | NextBlock(validators: seq<string>)

  function After(s: Limiter, e: Event): Limiter
  {
    match e
    case Check(incoming) => AfterCheck(s, incoming)
    case Declare(coreId, key, lnId) => AfterDeclare(s, coreId, key, lnId)
    case AnchorOutcome(coreId, confirmed) => AfterAnchor(s, coreId, confirmed)
    case NextBlock(validators) => s.(height := s.height + 1, validators := validators)
  }

  function AfterAll(s: Limiter, events: seq<Event>): Limiter
  {
    if events == [] then s else After(AfterAll(s, events[..|events| - 1]), events[|events| - 1])
  }

  const START := Limiter(map[], map[], map[], 0, [])

  /** The limit under a key, declared or not yet. */
  function LimitUnder(s: Limiter, key: string, kind: Kind): RateLimit
  {
    LimitOf(if key in s.records then s.records[key] else NEW_TX_VALIDATION, kind)
  }

  /** The attempt an event makes on a key's limit: the checks of cores that declared it. */
  function AttemptsAt(s: Limiter, e: Event, key: string, kind: Kind): seq<Attempt>
  {
    if e.Check? && e.incoming.Some? && e.incoming.value.coreId in s.coreKeys && s.coreKeys[e.incoming.value.coreId] == key
    then AttemptsBy(e.incoming.value, s, kind) else []
  }

  function AttemptsOf(s: Limiter, events: seq<Event>, key: string, kind: Kind): seq<Attempt>
  {
    if events == [] then []
    else AttemptsOf(s, events[..|events| - 1], key, kind)
         + AttemptsAt(AfterAll(s, events[..|events| - 1]), events[|events| - 1], key, kind)
  }

  /** Complete records stay complete over every event. */
  lemma StepKeepsRecords(s: Limiter, e: Event)
    requires RecordsComplete(s)
    ensures RecordsComplete(After(s, e))
  {
    if e.Check? && e.incoming.Some? && e.incoming.value.coreId in s.coreKeys {
      CheckKeepsRates(s.records[s.coreKeys[e.incoming.value.coreId]], s, e.incoming.value);
    }
  }

  lemma {:induction false} RunKeepsRecords(s: Limiter, events: seq<Event>)
    requires RecordsComplete(s)
    ensures RecordsComplete(AfterAll(s, events))
  {
    if events != [] {
      RunKeepsRecords(s, events[..|events| - 1]);
      StepKeepsRecords(AfterAll(s, events[..|events| - 1]), events[|events| - 1]);
    }
  }

  lemma StepMovesLimit(s: Limiter, e: Event, key: string, kind: Kind)
    requires RecordsComplete(s)
    ensures LimitUnder(After(s, e), key, kind) == AfterAttempts(LimitUnder(s, key, kind), AttemptsAt(s, e, key, kind))
  {
    if e.Check? && e.incoming.Some? && e.incoming.value.coreId in s.coreKeys {
      CheckMovesLimits(s.records[s.coreKeys[e.incoming.value.coreId]], s, e.incoming.value, kind);
    }
  }

  lemma {:induction false} AttemptsInTwoParts(l: RateLimit, a: seq<Attempt>, b: seq<Attempt>)
    ensures AfterAttempts(l, a + b) == AfterAttempts(AfterAttempts(l, a), b)
  {
    if b == [] {
      assert a + b == a;
    } else {
      assert (a + b)[..|a + b| - 1] == a + b[..|b| - 1];
      AttemptsInTwoParts(l, a, b[..|b| - 1]);
    }
  }

  /** Over any run, whatever else happens, a key's limit is the bucket of its own attempts. */
  lemma {:induction false} LimitIsBucket(s: Limiter, events: seq<Event>, key: string, kind: Kind)
    requires RecordsComplete(s)
    ensures LimitUnder(AfterAll(s, events), key, kind) == AfterAttempts(LimitUnder(s, key, kind), AttemptsOf(s, events, key, kind))
  {
    if events != [] {
      var front := events[..|events| - 1];
      LimitIsBucket(s, front, key, kind);
      RunKeepsRecords(s, front);
      StepMovesLimit(AfterAll(s, front), events[|events| - 1], key, kind);
      AttemptsInTwoParts(LimitUnder(s, key, kind), AttemptsOf(s, front, key, kind),
                         AttemptsAt(AfterAll(s, front), events[|events| - 1], key, kind));
    }
  }

  // ---- what is accepted ----------------------------------------------------

  /** Whether every window that ends with one more attempt has a token left for it. */
  ghost predicate WindowsAllow(limit: RateLimit, before: seq<Attempt>, a: Attempt)
  {
    RoomFor(limit, before + [a], WindowDecisions(limit, before), limit.perBlocks)
  }

  lemma PassesWhenWindowsAllow(limit: RateLimit, before: seq<Attempt>, a: Attempt)
    requires a.qualifies
    ensures Passes(Refilled(AfterAttempts(limit, before), a.height), a) <==> a.exempt || WindowsAllow(limit, before, a)
  {
    var all := before + [a];
    assert all[..|all| - 1] == before;
    LimitStays(limit, before);
    BucketIsLeastRoom(limit, all, limit.perBlocks);
    BucketIsWindows(limit, before);
  }

  /** A FEE passes its refilled limit exactly when Validate accepts it; so does a BTC-A. */
  lemma AcceptsWhenPassing(s: Limiter, tx: Incoming, kind: Kind)
    requires RecordsComplete(s) && tx.coreId in s.coreKeys
    requires (kind.FeeKind? && tx.txType == "FEE") || (kind.BtcaKind? && tx.txType == "BTC-A")
    ensures var a := AttemptsBy(tx, s, kind)[0];
            Accepts(s, Some(tx)) <==> Passes(Refilled(LimitUnder(s, s.coreKeys[tx.coreId], kind), s.height), a)
  {
  }

  /** After any run from the start, a FEE of a declared core is accepted exactly when it
      offers at least 50 and every window of its key's earlier attempts has room for it. */
  lemma FeeAcceptedExactly(events: seq<Event>, tx: Incoming)
    requires tx.txType == "FEE" && tx.coreId in AfterAll(START, events).coreKeys
    ensures var s := AfterAll(START, events);
            var key := s.coreKeys[tx.coreId];
            Accepts(s, Some(tx)) <==>
              && tx.amount.Some? && tx.amount.value >= 50
              && WindowsAllow(RateLimit(4, 60, 0, 0), AttemptsOf(START, events, key, FeeKind), Attempt(s.height, true, false))
  {
    var s := AfterAll(START, events);
    var key := s.coreKeys[tx.coreId];
    RunKeepsRecords(START, events);
    AcceptsWhenPassing(s, tx, FeeKind);
    LimitIsBucket(START, events, key, FeeKind);
    if tx.amount.Some? && tx.amount.value >= 50 {
      PassesWhenWindowsAllow(NEW_TX_VALIDATION.feeAllowedRate, AttemptsOf(START, events, key, FeeKind), Attempt(s.height, true, false));
    }
  }

  /** ... and a BTC-A exactly when its core is a validator or every window has room. */
  lemma BtcaAcceptedExactly(events: seq<Event>, tx: Incoming)
    requires tx.txType == "BTC-A" && tx.coreId in AfterAll(START, events).coreKeys
    ensures var s := AfterAll(START, events);
            var key := s.coreKeys[tx.coreId];
            Accepts(s, Some(tx)) <==>
              tx.coreId in s.validators
              || WindowsAllow(RateLimit(2, 60, 0, 0), AttemptsOf(START, events, key, BtcaKind), Attempt(s.height, true, false))
  {
    var s := AfterAll(START, events);
    var key := s.coreKeys[tx.coreId];
    RunKeepsRecords(START, events);
    AcceptsWhenPassing(s, tx, BtcaKind);
    LimitIsBucket(START, events, key, BtcaKind);
    PassesWhenWindowsAllow(NEW_TX_VALIDATION.btcaAllowedRate, AttemptsOf(START, events, key, BtcaKind), Attempt(s.height, true, false));
  }

  /** CAL and BTC-C limits are kept but not enforced: every one of a declared core passes. */
  lemma CalNeverLimited(events: seq<Event>, tx: Incoming)
    requires (tx.txType == "CAL" || tx.txType == "BTC-C") && tx.coreId in AfterAll(START, events).coreKeys
    ensures Accepts(AfterAll(START, events), Some(tx))
  {
    RunKeepsRecords(START, events);
  }

  /** VAL and BTC-E transactions of a declared core always pass and move no record. */
  lemma ValAndErrorAlwaysPass(events: seq<Event>, tx: Incoming)
    requires (tx.txType == "VAL" || tx.txType == "BTC-E") && tx.coreId in AfterAll(START, events).coreKeys
    ensures var s := AfterAll(START, events);
            Accepts(s, Some(tx)) && !Fails(s, Some(tx)) && AfterCheck(s, Some(tx)) == s
  {
    RunKeepsRecords(START, events);
    var s := AfterAll(START, events);
    assert s.records[s.coreKeys[tx.coreId] := s.records[s.coreKeys[tx.coreId]]] == s.records;
  }

  /** An undeclared core passes with a JWK only, and moves no record. */
  lemma UndeclaredPassesWithJwk(s: Limiter, tx: Incoming)
    requires tx.coreId !in s.coreKeys
    ensures (Accepts(s, Some(tx)) <==> tx.txType == "JWK") && (Fails(s, Some(tx)) <==> tx.txType != "JWK") && AfterCheck(s, Some(tx)) == s
  {
  }

  /** The rates, over every run: 80 CALs, 2 BTC-As, 1 BTC-C and 4 FEEs in 60 blocks. */
  lemma RatesOfRun(events: seq<Event>, key: string)
    requires key in AfterAll(START, events).records
    ensures var r := AfterAll(START, events).records[key];
            && r.calAllowedRate.allowedRate == 80 && r.btcaAllowedRate.allowedRate == 2
            && r.btccAllowedRate.allowedRate == 1 && r.feeAllowedRate.allowedRate == 4
            && r.calAllowedRate.perBlocks == r.btcaAllowedRate.perBlocks == r.btccAllowedRate.perBlocks == r.feeAllowedRate.perBlocks == 60
  {
    RunKeepsRecords(START, events);
    var r := AfterAll(START, events).records[key];
    assert LimitOf(r, CalKind) == r.calAllowedRate && LimitOf(r, BtcaKind) == r.btcaAllowedRate;
    assert LimitOf(r, BtccKind) == r.btccAllowedRate && LimitOf(r, FeeKind) == r.feeAllowedRate;
  }

  /** A transaction passes together with an error exactly when it is a JWK of a declared core with a
      known Lightning identity and its meta does not parse. */
  lemma PassesWithErrorExactly(s: Limiter, incoming: Option<Incoming>)
    requires RecordsComplete(s)
    ensures Accepts(s, incoming) && Fails(s, incoming) <==>
            incoming.Some? && incoming.value.txType == "JWK" && incoming.value.coreId in s.coreKeys
            && incoming.value.coreId in s.lnUris && !incoming.value.lnIdOk
  {
  }

  /** The types that the switch knows, of a declared core. */
  lemma UnknownNeverPasses(s: Limiter, tx: Incoming)
    requires RecordsComplete(s) && tx.coreId in s.coreKeys
    ensures tx.txType !in ["VAL", "BTC-E", "CAL", "BTC-A", "BTC-C", "FEE", "JWK"] ==> !Accepts(s, Some(tx))
  {
  }

  // ---- the buckets stay within their bounds --------------------------------

  lemma {:induction false} AttemptHeights(s: Limiter, events: seq<Event>, key: string, kind: Kind)
    requires s.height >= 0
    ensures AfterAll(s, events).height >= s.height
    ensures forall i :: 0 <= i < |AttemptsOf(s, events, key, kind)| ==>
              0 <= AttemptsOf(s, events, key, kind)[i].height <= AfterAll(s, events).height
    ensures forall i, j :: 0 <= i < j < |AttemptsOf(s, events, key, kind)| ==>
              AttemptsOf(s, events, key, kind)[i].height <= AttemptsOf(s, events, key, kind)[j].height
  {
    if events != [] {
      AttemptHeights(s, events[..|events| - 1], key, kind);
    }
  }

  lemma {:induction false} OnlyBtcaExempt(s: Limiter, events: seq<Event>, key: string, kind: Kind)
    requires !kind.BtcaKind?
    ensures forall a :: a in AttemptsOf(s, events, key, kind) ==> !a.exempt
  {
    if events != [] {
      OnlyBtcaExempt(s, events[..|events| - 1], key, kind);
    }
  }

  /** No bucket ever overflows. Every FEE, CAL and BTC-C bucket is always between empty and
      full, and the BTC-A bucket of a key too, as long as none of its attempts was a
      validator's; no window of heights then holds more acceptances than the allowance and the
      refill over it. */
  lemma BucketsBounded(events: seq<Event>, key: string, kind: Kind)
    ensures var limit := LimitUnder(AfterAll(START, events), key, kind);
            limit.scaled <= limit.allowedRate * limit.perBlocks
    ensures NoExemption(events, key, kind) ==> LimitUnder(AfterAll(START, events), key, kind).scaled >= 0
    ensures var attempts, made := AttemptsOf(START, events, key, kind), LimitOf(NEW_TX_VALIDATION, kind);
            NoExemption(events, key, kind) ==> NoneOverruns(made, attempts, WindowDecisions(made, attempts))
  {
    var attempts, made := AttemptsOf(START, events, key, kind), LimitOf(NEW_TX_VALIDATION, kind);
    AttemptsAscend(events, key, kind);
    NewLimitsWithin(kind);
    LimitIsBucket(START, events, key, kind);
    AttemptsBounded(made, attempts);
    if NoExemption(events, key, kind) {
      NoneExempt(events, key, kind);
    }
  }

  lemma AttemptsAscend(events: seq<Event>, key: string, kind: Kind)
    ensures Ascending(LimitOf(NEW_TX_VALIDATION, kind), AttemptsOf(START, events, key, kind))
  {
    AttemptHeights(START, events, key, kind);
  }

  lemma NewLimitsWithin(kind: Kind)
    ensures Within(LimitOf(NEW_TX_VALIDATION, kind))
  {
  }

  /** None of the attempts on a BTC-A limit was a validator's. */
  ghost predicate NoExemption(events: seq<Event>, key: string, kind: Kind)
  {
    kind.BtcaKind? ==> forall a :: a in AttemptsOf(START, events, key, kind) ==> !a.exempt
  }

  lemma NoneExempt(events: seq<Event>, key: string, kind: Kind)
    requires NoExemption(events, key, kind)
    ensures forall a :: a in AttemptsOf(START, events, key, kind) ==> !a.exempt
  {
    if !kind.BtcaKind? {
      OnlyBtcaExempt(START, events, key, kind);
    }
  }
}
