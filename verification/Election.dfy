/** Leader election of leaderelection/tmleader.go over the active cores of
    txratelimiter/validation.go. The loops over Go maps take the keys in any order. */
module Election {
  import opened ChainTypes
  import RateLimiter

  // ---- strings in Go's order -----------------------------------------------

  /** Go's `<=` on strings: element by element, a proper prefix first. */
  predicate Leq(a: string, b: string)
  {
    a == [] || (b != [] && (a[0] < b[0] || (a[0] == b[0] && Leq(a[1..], b[1..]))))
  }

  lemma {:induction false} LeqTotal(a: string, b: string)
    ensures Leq(a, b) || Leq(b, a)
  {
    if a != [] && b != [] && a[0] == b[0] {
      LeqTotal(a[1..], b[1..]);
    }
  }

  lemma {:induction false} LeqAntisymmetric(a: string, b: string)
    requires Leq(a, b) && Leq(b, a)
    ensures a == b
  {
    if a != [] {
      LeqAntisymmetric(a[1..], b[1..]);
      assert a == [a[0]] + a[1..] && b == [b[0]] + b[1..];
    }
  }

  lemma {:induction false} LeqTransitive(a: string, b: string, c: string)
    requires Leq(a, b) && Leq(b, c)
    ensures Leq(a, c)
  {
    if a != [] && a[0] == b[0] && b[0] == c[0] {
      LeqTransitive(a[1..], b[1..], c[1..]);
    }
  }

  /** In words: a is b's beginning, or smaller where the two first differ. */
  lemma {:induction false} LeqMeans(a: string, b: string)
    ensures Leq(a, b) <==> a <= b || exists i: nat :: DiffersAt(a, b, i)
  {
    if a != [] && b != [] {
      if a[0] == b[0] {
        LeqMeans(a[1..], b[1..]);
        SameStart(a, b);
      } else if Leq(a, b) {
        assert DiffersAt(a, b, 0);
      } else {
        forall i: nat | i > 0 && i < |a| && i < |b| ensures !DiffersAt(a, b, i) {
          assert a[..i][0] != b[..i][0];
        }
      }
    }
  }

  predicate DiffersAt(a: string, b: string, i: nat)
  {
    i < |a| && i < |b| && a[..i] == b[..i] && a[i] < b[i]
  }

  lemma SameStart(a: string, b: string)
    requires a != [] && b != [] && a[0] == b[0]
    ensures a <= b <==> a[1..] <= b[1..]
    ensures (exists i: nat :: DiffersAt(a, b, i)) <==> exists i: nat :: DiffersAt(a[1..], b[1..], i)
  {
    assert a == [a[0]] + a[1..] && b == [b[0]] + b[1..];
    forall i: nat ensures DiffersAt(a[1..], b[1..], i) <==> DiffersAt(a, b, i + 1) {
      DiffersInRest(a, b, i);
    }
    if exists i: nat :: DiffersAt(a, b, i) {
      var i: nat :| DiffersAt(a, b, i);
      assert DiffersAt(a[1..], b[1..], i - 1);
    }
  }

  lemma DiffersInRest(a: string, b: string, i: nat)
    requires a != [] && b != [] && a[0] == b[0]
    ensures DiffersAt(a[1..], b[1..], i) <==> DiffersAt(a, b, i + 1)
  {
    if i < |a| - 1 && i < |b| - 1 {
      assert a[..i + 1] == [a[0]] + a[1..][..i] && b[..i + 1] == [b[0]] + b[1..][..i];
      assert a[1..][..i] == a[..i + 1][1..] && b[1..][..i] == b[..i + 1][1..];
    }
  }

  // ---- sorting -------------------------------------------------------------

  ghost predicate Sorted<T(!new)>(s: seq<T>, leq: (T, T) -> bool)
  {
    forall i, j :: 0 <= i < j < |s| ==> leq(s[i], s[j])
  }

  /** What sort.Strings and sort.Slice promise; neither says what becomes of equal elements. */
  ghost predicate IsSortOf<T(!new)>(sorted: seq<T>, s: seq<T>, leq: (T, T) -> bool)
  {
    multiset(sorted) == multiset(s) && Sorted(sorted, leq)
  }

  ghost predicate AntisymmetricOn<T(!new)>(s: seq<T>, leq: (T, T) -> bool)
  {
    forall x, y :: x in s && y in s && leq(x, y) && leq(y, x) ==> x == y
  }

  lemma SameMembers<T>(a: seq<T>, b: seq<T>)
    requires multiset(a) == multiset(b)
    ensures |a| == |b| && forall x :: x in a <==> x in b
  {
    assert |multiset(a)| == |a| && |multiset(b)| == |b|;
    forall x ensures x in a <==> x in b {
      assert x in a <==> x in multiset(a);
      assert x in b <==> x in multiset(b);
    }
  }

  lemma SameTails<T>(a: seq<T>, b: seq<T>)
    requires a != [] && b != [] && a[0] == b[0] && multiset(a) == multiset(b)
    ensures multiset(a[1..]) == multiset(b[1..])
  {
    assert a == [a[0]] + a[1..] && b == [b[0]] + b[1..];
    assert multiset(a[1..]) == multiset(a) - multiset{a[0]};
    assert multiset(b[1..]) == multiset(b) - multiset{b[0]};
  }

  lemma SameFirst<T(!new)>(a: seq<T>, b: seq<T>, leq: (T, T) -> bool)
    requires a != [] && b != [] && (forall x :: x in a <==> x in b)
    requires Sorted(a, leq) && Sorted(b, leq) && AntisymmetricOn(a, leq)
    ensures a[0] == b[0]
  {
    assert a[0] in b && b[0] in a;
    var i :| 0 <= i < |b| && b[i] == a[0];
    var j :| 0 <= j < |a| && a[j] == b[0];
    assert i == 0 || leq(b[0], b[i]);
    assert j == 0 || leq(a[0], a[j]);
  }

  /** Any two sorts of the same elements in any two orders agree when no two different
      elements compare equal. */
  lemma {:induction false} SortIsUnique<T(!new)>(a: seq<T>, b: seq<T>, leq: (T, T) -> bool)
    requires multiset(a) == multiset(b) && Sorted(a, leq) && Sorted(b, leq) && AntisymmetricOn(a, leq)
    ensures a == b
  {
    SameMembers(a, b);
    if a != [] {
      SameFirst(a, b, leq);
      SameTails(a, b);
      SortIsUnique(a[1..], b[1..], leq);
      assert a == [a[0]] + a[1..] && b == [b[0]] + b[1..];
    }
  }

  ghost predicate TotalOrder<T(!new)>(leq: (T, T) -> bool)
  {
    && (forall x, y :: leq(x, y) || leq(y, x))
    && (forall x, y, z :: leq(x, y) && leq(y, z) ==> leq(x, z))
  }

  lemma InsertedSorted<T(!new)>(s: seq<T>, k: nat, x: T, leq: (T, T) -> bool)
    requires TotalOrder(leq) && Sorted(s, leq) && k <= |s|
    requires (forall i :: 0 <= i < k ==> leq(s[i], x)) && (k < |s| ==> leq(x, s[k]))
    ensures Sorted(s[..k] + [x] + s[k..], leq)
    ensures multiset(s[..k] + [x] + s[k..]) == multiset(s) + multiset{x}
  {
    assert s == s[..k] + s[k..];
    var r := s[..k] + [x] + s[k..];
    forall i, j | 0 <= i < j < |r| ensures leq(r[i], r[j]) {
      assert k < |s| && j > k ==> leq(s[k], s[j - 1]) || j == k + 1;
    }
  }

  /** Where an element goes in a sorted list. */
  method Insert<T(!new)>(s: seq<T>, x: T, leq: (T, T) -> bool) returns (r: seq<T>)
    requires TotalOrder(leq) && Sorted(s, leq)
    ensures multiset(r) == multiset(s) + multiset{x} && Sorted(r, leq)
  {
    var k := 0;
    while k < |s| && leq(s[k], x)
      invariant k <= |s| && forall i :: 0 <= i < k ==> leq(s[i], x)
    {
      k := k + 1;
    }
    InsertedSorted(s, k, x, leq);
    r := s[..k] + [x] + s[k..];
  }

  method Sort<T(!new)>(s: seq<T>, leq: (T, T) -> bool) returns (r: seq<T>)
    requires TotalOrder(leq)
    ensures IsSortOf(r, s, leq)
  {
    r := [];
    for i := 0 to |s|
      invariant IsSortOf(r, s[..i], leq)
    {
      r := Insert(r, s[i], leq);
      assert s[..i + 1] == s[..i] + [s[i]];
    }
    assert s[..|s|] == s;
  }

  // ---- active cores --------------------------------------------------------

  /** What every node sees alike: declared keys (core ID to public key in hex), validation
      records by public key, the height and the latest block's hash. */
  datatype ChainView = ChainView(coreKeys: map<string, string>, records: map<string, RateLimiter.TxValidation>, height: int, blockHash: string)

  ghost predicate ActiveSince(r: RateLimiter.TxValidation, height: int)
  {
    r.lastCalTxHeight > height || r.lastFeeTxHeight > height || r.lastBtcaTxHeight > height || r.lastBtccTxHeight > height
  }

  ghost predicate IsActive(v: ChainView, n: int, id: string)
  {
    id in v.coreKeys && v.coreKeys[id] in v.records && ActiveSince(v.records[v.coreKeys[id]], v.height - n)
  }

  /** The height kept for an active core: that of the last kind, in this order, seen in time. */
  ghost predicate IsKeptHeight(r: RateLimiter.TxValidation, since: int, h: int)
  {
    if r.lastBtccTxHeight > since then h == r.lastBtccTxHeight
    else if r.lastBtcaTxHeight > since then h == r.lastBtcaTxHeight
    else if r.lastFeeTxHeight > since then h == r.lastFeeTxHeight
    else h == r.lastCalTxHeight
  }

  ghost predicate AreLastSubmitters(v: ChainView, n: int, cores: map<string, int>)
  {
    && (forall id :: id in cores <==> IsActive(v, n, id))
    && (forall id :: id in cores ==> IsKeptHeight(v.records[v.coreKeys[id]], v.height - n, cores[id]))
  }

  method GetLastNSubmitters(n: int, v: ChainView) returns (cores: map<string, int>)
    ensures AreLastSubmitters(v, n, cores)
  {
    cores := map[];
    var left := v.coreKeys.Keys;
    while left != {}
      invariant left <= v.coreKeys.Keys
      invariant forall id :: id in cores <==> IsActive(v, n, id) && id !in left
      invariant forall id :: id in cores ==> IsKeptHeight(v.records[v.coreKeys[id]], v.height - n, cores[id])
      decreases |left|
    {
      var id :| id in left;
      var pubKeyHex := v.coreKeys[id];
      if pubKeyHex in v.records {
        var record := v.records[pubKeyHex];
        if record.lastCalTxHeight > v.height - n {
          cores := cores[id := record.lastCalTxHeight];
        }
        if record.lastFeeTxHeight > v.height - n {
          cores := cores[id := record.lastFeeTxHeight];
        }
        if record.lastBtcaTxHeight > v.height - n {
          cores := cores[id := record.lastBtcaTxHeight];
        }
        if record.lastBtccTxHeight > v.height - n {
          cores := cores[id := record.lastBtccTxHeight];
        }
      }
      left := left - {id};
    }
  }

  // ---- election among active cores -----------------------------------------

  /** The seeded election of the leader-election library: list, number of leaders, seed. */
  type Elect<!T> = (seq<T>, int, string) -> Option<seq<T>>

  const ACTIVE_WINDOW := 128

  ghost function Candidates(v: ChainView, blacklist: set<string>): set<string>
  {
    set id | id in v.coreKeys && IsActive(v, ACTIVE_WINDOW, id) && id !in blacklist
  }

  ghost function Ids(list: seq<string>): set<string>
  {
    set id | id in list
  }

  /** A set of strings listed once each in order. */
  ghost predicate Lists(list: seq<string>, ids: set<string>)
  {
    multiset(list) == multiset(ids) && Sorted(list, Leq)
  }

  /** The leaders of a view: the election on the ordered candidates, if there are any. */
  ghost predicate AreLeaders(v: ChainView, blacklist: set<string>, number: int, elect: Elect<string>, leaders: seq<string>)
  {
    exists list :: Lists(list, Candidates(v, blacklist))
      && leaders == if list == [] || elect(list, number, v.blockHash).None? then [] else elect(list, number, v.blockHash).value
  }

  lemma StringOrder()
    ensures TotalOrder(Leq)
  {
    forall x, y ensures Leq(x, y) || Leq(y, x) {
      LeqTotal(x, y);
    }
    forall x, y, z | Leq(x, y) && Leq(y, z) ensures Leq(x, z) {
      LeqTransitive(x, y, z);
    }
  }

  /** A view has one list of leaders. */
  lemma LeadersAreUnique(v: ChainView, blacklist: set<string>, number: int, elect: Elect<string>, a: seq<string>, b: seq<string>)
    requires AreLeaders(v, blacklist, number, elect, a) && AreLeaders(v, blacklist, number, elect, b)
    ensures a == b
  {
    var la :| Lists(la, Candidates(v, blacklist))
      && a == if la == [] || elect(la, number, v.blockHash).None? then [] else elect(la, number, v.blockHash).value;
    var lb :| Lists(lb, Candidates(v, blacklist))
      && b == if lb == [] || elect(lb, number, v.blockHash).None? then [] else elect(lb, number, v.blockHash).value;
    forall x, y | x in la && y in la && Leq(x, y) && Leq(y, x) ensures x == y {
      LeqAntisymmetric(x, y);
    }
    SortIsUnique(la, lb, Leq);
  }

  method Blacklisted(id: string, blacklist: seq<string>) returns (filtered: bool)
    ensures filtered <==> id in blacklist
  {
    filtered := false;
    for i := 0 to |blacklist|
      invariant filtered <==> id in blacklist[..i]
    {
      if id == blacklist[i] {
        filtered := true;
      }
    }
  }

  /** The node with no ID elects no one; otherwise the leaders are those of the view. A node
      claims leadership exactly when it is one of them and is not catching up. */
  method ElectChainContributorAsLeader(number: int, blacklist: seq<string>, v: ChainView, id: string, catchingUp: bool, elect: Elect<string>)
      returns (isLeader: bool, leaders: seq<string>)
    ensures id == "" ==> !isLeader && leaders == []
    ensures id != "" ==> AreLeaders(v, Ids(blacklist), number, elect, leaders)
    ensures id != "" ==> (isLeader <==> id in leaders && !catchingUp)
  {
    if id == "" {
      return false, [];
    }
    var cores := GetLastNSubmitters(ACTIVE_WINDOW, v);
    assert cores.Keys - Ids(blacklist) == Candidates(v, Ids(blacklist));
    var keys := KeysOffBlacklist(cores, blacklist);
    StringOrder();
    keys := Sort(keys, Leq);
    assert Lists(keys, Candidates(v, Ids(blacklist)));
    if |keys| == 0 {
      return false, [];
    }
    var elected := elect(keys, number, v.blockHash);
    if elected.None? {
      return false, [];
    }
    leaders := elected.value;
    isLeader := Claims(leaders, id, catchingUp);
  }

  lemma OneMoreKey(keys: seq<string>, kept: set<string>, k: string)
    requires multiset(keys) == multiset(kept) && k !in kept
    ensures multiset(keys + [k]) == multiset(kept + {k})
  {
  }

  method KeysOffBlacklist(cores: map<string, int>, blacklist: seq<string>) returns (keys: seq<string>)
    ensures multiset(keys) == multiset(cores.Keys - Ids(blacklist))
  {
    var left: set<string>;
    ghost var kept: set<string>;
    left, keys, kept := cores.Keys, [], {};
    while left != {}
      invariant left <= cores.Keys && kept == (cores.Keys - left) - Ids(blacklist)
      invariant multiset(keys) == multiset(kept)
      decreases |left|
    {
      var k :| k in left;
      var filtered := Blacklisted(k, blacklist);
      if !filtered {
        OneMoreKey(keys, kept, k);
        keys := keys + [k];
        kept := kept + {k};
      }
      left := left - {k};
    }
  }

  method Claims(leaders: seq<string>, id: string, catchingUp: bool) returns (isLeader: bool)
    ensures isLeader <==> id in leaders && !catchingUp
  {
    isLeader := false;
    for i := 0 to |leaders|
      invariant isLeader <==> id in leaders[..i] && !catchingUp
    {
      if leaders[i] == id && !catchingUp {
        isLeader := true;
      }
    }
  }

  /** Nodes that see the same chain and blacklist the same IDs elect the same leaders; when
      one is elected, at most one ID leads. */
  lemma AtMostOneLeads(v: ChainView, blacklistA: seq<string>, blacklistB: seq<string>, number: int, elect: Elect<string>,
                       leadersA: seq<string>, leadersB: seq<string>, idA: string, idB: string)
    requires Ids(blacklistA) == Ids(blacklistB)
    requires AreLeaders(v, Ids(blacklistA), number, elect, leadersA) && AreLeaders(v, Ids(blacklistB), number, elect, leadersB)
    ensures leadersA == leadersB
    ensures |leadersA| <= 1 && idA in leadersA && idB in leadersB ==> idA == idB
  {
    LeadersAreUnique(v, Ids(blacklistA), number, elect, leadersA, leadersB);
  }

  /** What the election library is relied on for: some of the listed, at least one. */
  ghost predicate Picks<T(!new)>(elect: Elect<T>, number: int)
  {
    forall list: seq<T>, seed: string :: list != [] ==>
      elect(list, number, seed).Some? && elect(list, number, seed).value != []
      && forall x :: x in elect(list, number, seed).value ==> x in list
  }

  /** With such a library every leader is an active core off the blacklist, and there is a
      leader exactly when there is such a core. */
  lemma LeadersAreActive(v: ChainView, blacklist: set<string>, number: int, elect: Elect<string>, leaders: seq<string>)
    requires AreLeaders(v, blacklist, number, elect, leaders) && Picks(elect, number)
    ensures forall id :: id in leaders ==> IsActive(v, ACTIVE_WINDOW, id) && id !in blacklist
    ensures leaders == [] <==> forall id :: IsActive(v, ACTIVE_WINDOW, id) ==> id in blacklist
  {
    var list :| Lists(list, Candidates(v, blacklist))
      && leaders == if list == [] || elect(list, number, v.blockHash).None? then [] else elect(list, number, v.blockHash).value;
    assert forall id :: id in multiset(list) <==> id in Candidates(v, blacklist);
    if list == [] {
      forall id | IsActive(v, ACTIVE_WINDOW, id) ensures id in blacklist {
        assert id !in Candidates(v, blacklist);
      }
    } else {
      assert list[0] in multiset(list) && list[0] in Candidates(v, blacklist);
      forall id | id in leaders ensures id in Candidates(v, blacklist) {
        assert id in list && id in multiset(list);
      }
    }
  }

  /** The election is that of the library, on the ordered candidates and seeded by the hash of the
      latest block. */
  lemma ElectionIsSeeded(v: ChainView, blacklist: set<string>, number: int, elect: Elect<string>, leaders: seq<string>, list: seq<string>)
    requires AreLeaders(v, blacklist, number, elect, leaders) && list != [] && Sorted(list, Leq)
    requires multiset(list) == multiset(set id | id in v.coreKeys && IsActive(v, 128, id) && id !in blacklist)
    ensures elect(list, number, v.blockHash) == None ==> leaders == []
    ensures elect(list, number, v.blockHash) != None ==> elect(list, number, v.blockHash) == Some(leaders)
  {
    assert Lists(list, Candidates(v, blacklist));
    LeadersAreUnique(v, blacklist, number, elect, leaders, if elect(list, number, v.blockHash).None? then [] else elect(list, number, v.blockHash).value);
  }

  // ---- election among validators -------------------------------------------

  datatype Validator = Validator(address: string, votingPower: int)

  predicate Descending(a: Validator, b: Validator)
  {
    Leq(b.address, a.address)
  }

  ghost predicate DistinctAddresses(vals: seq<Validator>)
  {
    forall x, y :: x in vals && y in vals && x.address == y.address ==> x == y
  }

  lemma ValidatorOrder()
    ensures TotalOrder(Descending)
  {
    StringOrder();
  }

  method GetSortedValidatorList(validators: seq<Validator>) returns (list: seq<Validator>)
    ensures IsSortOf(list, validators, Descending)
    ensures forall i, j :: 0 <= i < j < |list| ==> Leq(list[j].address, list[i].address)
  {
    ValidatorOrder();
    list := Sort(validators, Descending);
  }

  function Allowed(vals: seq<Validator>, blacklist: set<string>): seq<Validator>
  {
    if vals == [] then []
    else
      var rest := Allowed(vals[..|vals| - 1], blacklist);
      if vals[|vals| - 1].address in blacklist then rest else rest + [vals[|vals| - 1]]
  }

  function Addresses(vals: seq<Validator>): (r: seq<string>)
    ensures |r| == |vals|
  {
    if vals == [] then [] else Addresses(vals[..|vals| - 1]) + [vals[|vals| - 1].address]
  }

  function LeadingValidators(sorted: seq<Validator>, blacklist: set<string>, number: int, elect: Elect<Validator>, seed: string): seq<string>
  {
    var list := Allowed(sorted, blacklist);
    if list == [] || elect(list, number, seed).None? then [] else Addresses(elect(list, number, seed).value)
  }

  ghost predicate AreLeadingValidators(validators: seq<Validator>, blacklist: set<string>, number: int, elect: Elect<Validator>, seed: string, leaders: seq<string>)
  {
    exists sorted :: IsSortOf(sorted, validators, Descending) && leaders == LeadingValidators(sorted, blacklist, number, elect, seed)
  }

  method DetermineValidatorLeader(number: int, blacklist: seq<string>, validators: seq<Validator>, seed: string, address: string,
                                  catchingUp: bool, elect: Elect<Validator>)
      returns (isLeader: bool, leaders: seq<string>)
    ensures AreLeadingValidators(validators, Ids(blacklist), number, elect, seed, leaders)
    ensures isLeader <==> address in leaders && !catchingUp
  {
    var list := GetSortedValidatorList(validators);
    ghost var banned := Ids(blacklist);
    assert AreLeadingValidators(validators, banned, number, elect, seed, LeadingValidators(list, banned, number, elect, seed));
    if |list| == 0 {
      return false, [];
    }
    var filteredArray: seq<Validator> := [];
    for i := 0 to |list|
      invariant filteredArray == Allowed(list[..i], banned)
    {
      var filtered := Blacklisted(list[i].address, blacklist);
      assert list[..i + 1][..i] == list[..i];
      if !filtered {
        filteredArray := filteredArray + [list[i]];
      }
    }
    assert list[..|list|] == list;
    if |filteredArray| == 0 {
      return false, [];
    }
    var elected := elect(filteredArray, number, seed);
    if elected.None? {
      return false, [];
    }
    var chosen := elected.value;
    isLeader, leaders := false, [];
    for i := 0 to |chosen|
      invariant leaders == Addresses(chosen[..i])
      invariant isLeader <==> address in leaders && !catchingUp
    {
      assert chosen[..i + 1][..i] == chosen[..i];
      leaders := leaders + [chosen[i].address];
      if chosen[i].address == address && !catchingUp {
        isLeader := true;
      }
    }
    assert chosen[..|chosen|] == chosen;
  }

  /** Validators listed in any order elect the same leaders, provided their addresses tell
      them apart. */
  lemma ValidatorLeadersAreUnique(a: seq<Validator>, b: seq<Validator>, blacklist: set<string>, number: int, elect: Elect<Validator>,
                                  seed: string, la: seq<string>, lb: seq<string>)
    requires multiset(a) == multiset(b) && DistinctAddresses(a)
    requires AreLeadingValidators(a, blacklist, number, elect, seed, la) && AreLeadingValidators(b, blacklist, number, elect, seed, lb)
    ensures la == lb
  {
    var sa :| IsSortOf(sa, a, Descending) && la == LeadingValidators(sa, blacklist, number, elect, seed);
    var sb :| IsSortOf(sb, b, Descending) && lb == LeadingValidators(sb, blacklist, number, elect, seed);
    forall x, y | x in sa && y in sa && Descending(x, y) && Descending(y, x) ensures x == y {
      LeqAntisymmetric(x.address, y.address);
      assert x in multiset(a) && y in multiset(a);
    }
    SortIsUnique(sa, sb, Descending);
  }

  /** The filter keeps the validators off the blacklist, in order, and no other. */
  lemma {:induction false} AllowedMembers(vals: seq<Validator>, blacklist: set<string>, x: Validator)
    ensures x in Allowed(vals, blacklist) <==> x in vals && x.address !in blacklist
  {
    if vals != [] {
      AllowedMembers(vals[..|vals| - 1], blacklist, x);
      assert vals == vals[..|vals| - 1] + [vals[|vals| - 1]];
    }
  }

  lemma {:induction false} AddressesMembers(vals: seq<Validator>, address: string)
    ensures address in Addresses(vals) <==> exists x :: x in vals && x.address == address
  {
    if vals != [] {
      AddressesMembers(vals[..|vals| - 1], address);
      assert vals == vals[..|vals| - 1] + [vals[|vals| - 1]];
    }
  }

  /** With a library that picks from its list every leading validator is one of the validators off the
      blacklist, and there is a leader exactly when there is such a validator. */
  lemma LeadingValidatorsAreAllowed(validators: seq<Validator>, blacklist: set<string>, number: int, elect: Elect<Validator>, seed: string,
                                    leaders: seq<string>)
    requires AreLeadingValidators(validators, blacklist, number, elect, seed, leaders) && Picks(elect, number)
    ensures forall address :: address in leaders ==> address !in blacklist && exists x :: x in validators && x.address == address
    ensures leaders == [] <==> forall x :: x in validators ==> x.address in blacklist
  {
    var sorted :| IsSortOf(sorted, validators, Descending) && leaders == LeadingValidators(sorted, blacklist, number, elect, seed);
    var list := Allowed(sorted, blacklist);
    SameMembers(sorted, validators);
    forall x ensures x in list <==> x in validators && x.address !in blacklist {
      AllowedMembers(sorted, blacklist, x);
    }
    if list != [] {
      var chosen := elect(list, number, seed).value;
      assert list[0] in list;
      forall address | address in leaders ensures address !in blacklist && exists x :: x in validators && x.address == address {
        AddressesMembers(chosen, address);
        var x :| x in chosen && x.address == address;
        assert x in list;
      }
    }
  }
}
