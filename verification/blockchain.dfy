/**
  The blockchain reader: listing the markets of the prediction-market
  contract, with defaults for missing fields, a fixed demonstration list as
  fallback, and the function names of the contract ABI. The chain is an
  oracle `Ledger` holding the answers the contract calls would give.
 */
module Blockchain {
  import opened Wrappers
  import opened Numerals

  // ---------------------------------------------------------------------------
  // Markets

  /** `MarketInfo`; `outcome`, `yesShares` and `noShares` are never set by the reader and are left out. */
  datatype MarketInfo = MarketInfo(
    id: string,
    question: string,
    creator: string,
    endTime: int,
    resolved: bool,
    active: bool,
    totalVolume: Option<string>,
    participants: Option<int>)

  /** A field of the `markets(i)` result, read by name and by position; `None` is `undefined`. */
  datatype Field<T> = Field(named: Option<T>, positional: Option<T>)

  /** The result of `markets(i)`: question, creator, end time, resolved flag and active flag. */
  datatype RawMarket = RawMarket(
    question: Field<string>,
    creator: Field<string>,
    endTime: Field<int>,
    resolved: Field<bool>,
    active: Field<bool>)

  /**
    What the chain answers: whether the connection test and the contract-code
    check pass, `totalMarkets()` (`None` when it fails or times out), the ids
    whose `markets(i)` call succeeds, the formatted `totalVolume` for the ids
    whose `getMarketInfo(i)` succeeds, `getActiveMarketCount()` (`None` when
    the contract lacks it or the call fails), and the clock.
   */
  datatype Ledger = Ledger(
    connected: bool,
    codeExists: bool,
    totalMarkets: Option<int>,
    markets: map<nat, RawMarket>,
    volumes: map<nat, string>,
    activeCount: Option<int>,
    now: int)

  const MaxChainMarkets: int := 10
  const DayMillis: int := 86400000
  const ZeroAddress: string := "0x" + "0000000000" + "0000000000" + "0000000000" + "0000000000"

  /** A string reading JavaScript treats as true: defined and non-empty. */
  predicate NonEmptyReading(o: Option<string>) {
    o.Some? && o.value != []
  }

  /** A number reading JavaScript treats as true: defined and non-zero. */
  predicate NonZeroReading(o: Option<int>) {
    o.Some? && o.value != 0
  }

  /** `a || b || fallback` on strings: the first non-empty one. */
  function StringOr(f: Field<string>, fallback: string): (r: string)
    ensures fallback != [] ==> r != []
    ensures r == fallback || (f.named.Some? && r == f.named.value) || (f.positional.Some? && r == f.positional.value)
    ensures NonEmptyReading(f.named) ==> r == f.named.value
    ensures !NonEmptyReading(f.named) && NonEmptyReading(f.positional) ==> r == f.positional.value
    ensures !NonEmptyReading(f.named) && !NonEmptyReading(f.positional) ==> r == fallback
  {
    if f.named.Some? && f.named.value != [] then f.named.value
    else if f.positional.Some? && f.positional.value != [] then f.positional.value
    else fallback
  }

  /** `a || b || fallback` on numbers: the first non-zero one. */
  function NumberOr(f: Field<int>, fallback: int): (r: int)
    ensures fallback != 0 ==> r != 0
    ensures r == fallback || (f.named.Some? && r == f.named.value) || (f.positional.Some? && r == f.positional.value)
    ensures NonZeroReading(f.named) ==> r == f.named.value
    ensures !NonZeroReading(f.named) && NonZeroReading(f.positional) ==> r == f.positional.value
    ensures !NonZeroReading(f.named) && !NonZeroReading(f.positional) ==> r == fallback
  {
    if f.named.Some? && f.named.value != 0 then f.named.value
    else if f.positional.Some? && f.positional.value != 0 then f.positional.value
    else fallback
  }

  /** `a || b || false` on booleans. */
  function BoolOr(f: Field<bool>): (r: bool)
    ensures r <==> f.named == Some(true) || f.positional == Some(true)
  {
    if f.named.Some? && f.named.value then true
    else if f.positional.Some? && f.positional.value then true
    else false
  }

  /** `a !== undefined ? a : (b !== undefined ? b : fallback)`: only `undefined` falls through. */
  function DefinedOr<T>(f: Field<T>, fallback: T): T {
    if f.named.Some? then f.named.value
    else if f.positional.Some? then f.positional.value
    else fallback
  }

  /** The `MarketInfo` built for id `i` from a successful `markets(i)` call. */
  function Normalize(i: nat, raw: RawMarket, volume: Option<string>, now: int): (m: MarketInfo)
    ensures m.id == NatToString(i)
    ensures m.question != [] && m.creator != []
    ensures now + DayMillis != 0 ==> m.endTime != 0
    ensures m.resolved <==> raw.resolved.named == Some(true) || raw.resolved.positional == Some(true)
    ensures raw.active.named.Some? ==> m.active == raw.active.named.value
    ensures raw.active.named.None? && raw.active.positional.Some? ==> m.active == raw.active.positional.value
    ensures m.totalVolume == volume && m.participants == None
  {
    var fallbackQuestion := "Market " + NatToString(i);
    assert fallbackQuestion != [] && ZeroAddress != [];
    MarketInfo(
      NatToString(i),
      StringOr(raw.question, fallbackQuestion),
      StringOr(raw.creator, ZeroAddress),
      NumberOr(raw.endTime, now + DayMillis),
      BoolOr(raw.resolved),
      DefinedOr(raw.active, true),
      volume,
      None)
  }

  /**
    Missing or falsy fields take their defaults: `Market <i>`, the zero
    address, one day from now and not resolved; `active` defaults to true
    only when both readings are undefined, so an explicit `false` is kept.
   */
  lemma NormalizeDefaults(i: nat, raw: RawMarket, now: int)
    requires raw.question.named in {None, Some([])} && raw.question.positional in {None, Some([])}
    requires raw.creator.named in {None, Some([])} && raw.creator.positional in {None, Some([])}
    requires raw.endTime.named in {None, Some(0)} && raw.endTime.positional in {None, Some(0)}
    ensures var m := Normalize(i, raw, None, now);
      && m.question == "Market " + NatToString(i)
      && m.creator == ZeroAddress
      && m.endTime == now + DayMillis
      && (raw.resolved.named != Some(true) && raw.resolved.positional != Some(true) ==> !m.resolved)
      && (raw.active.named.None? && raw.active.positional.None? ==> m.active)
      && (raw.active.named == Some(false) ==> !m.active)
      && (raw.active.named.None? && raw.active.positional == Some(false) ==> !m.active)
  {
  }

  /** The ids `0 .. n-1` whose `markets(i)` call succeeds, in ascending order. */
  function LoadedIds(l: Ledger, n: int): (ids: seq<nat>)
    ensures |ids| <= (if n < 0 then 0 else n)
    ensures forall k :: 0 <= k < |ids| ==> ids[k] < n && ids[k] in l.markets
    decreases n
  {
    if n <= 0 then []
    else LoadedIds(l, n - 1) + (if n - 1 in l.markets then [n - 1] else [])
  }

  /**
    The ids read are strictly increasing, and an id is among them exactly when
    it is below `n` and its read succeeds.
   */
  lemma {:induction false} LoadedIdsExactly(l: Ledger, n: int)
    ensures var ids := LoadedIds(l, n);
      && (forall k, k' :: 0 <= k < k' < |ids| ==> ids[k] < ids[k'])
      && (forall i :: i in ids <==> i < n && i in l.markets)
    decreases n
  {
    if n > 0 {
      LoadedIdsExactly(l, n - 1);
      var prev := LoadedIds(l, n - 1);
      var ids := LoadedIds(l, n);
      assert ids == prev + (if n - 1 in l.markets then [n - 1] else []);
      forall k, k' | 0 <= k < k' < |ids|
        ensures ids[k] < ids[k']
      {
        if k' >= |prev| {
          assert ids[k'] == n - 1;
          assert ids[k] == prev[k];
        } else {
          assert ids[k] == prev[k] && ids[k'] == prev[k'];
        }
      }
    }
  }

  /** The market built from a successful `markets(i)` call and, when it succeeded, `getMarketInfo(i)`. */
  function ReadMarket(l: Ledger, i: nat): (m: MarketInfo)
    requires i in l.markets
    ensures m.id == NatToString(i)
  {
    Normalize(i, l.markets[i], if i in l.volumes then Some(l.volumes[i]) else None, l.now)
  }

  /** The markets read for the given ids, in the same order. */
  function MarketsOf(l: Ledger, ids: seq<nat>): (ms: seq<MarketInfo>)
    requires forall k :: 0 <= k < |ids| ==> ids[k] in l.markets
    ensures |ms| == |ids|
    ensures forall k :: 0 <= k < |ids| ==> ms[k].id == NatToString(ids[k])
  {
    seq(|ids|, k requires 0 <= k < |ids| => ReadMarket(l, ids[k]))
  }

  lemma MarketsOfSnoc(l: Ledger, ids: seq<nat>, i: nat)
    requires forall k :: 0 <= k < |ids| ==> ids[k] in l.markets
    requires i in l.markets
    ensures MarketsOf(l, ids + [i]) == MarketsOf(l, ids) + [ReadMarket(l, i)]
  {
  }

  function Min(a: int, b: int): int {
    if a < b then a else b
  }

  /**
    The loop `for (let i = 0; i < Math.min(total, 10); i++)`: a market whose
    read fails is skipped, the others are appended in id order.
   */
  method ReadMarkets(l: Ledger, total: int) returns (markets: seq<MarketInfo>)
    ensures markets == MarketsOf(l, LoadedIds(l, Min(total, MaxChainMarkets)))
    ensures |markets| <= MaxChainMarkets
  {
    var limit := Min(total, MaxChainMarkets);
    markets := [];
    var i: nat := 0;
    while i < limit
      invariant i <= (if limit < 0 then 0 else limit)
      invariant markets == MarketsOf(l, LoadedIds(l, i))
    {
      LoadedIdsStep(l, i);
      if i in l.markets {
        MarketsOfSnoc(l, LoadedIds(l, i), i);
        markets := markets + [ReadMarket(l, i)];
      }
      i := i + 1;
    }
    assert LoadedIds(l, i) == LoadedIds(l, limit) by {
      if limit < 0 {
        assert i == 0;
      }
    }
  }

  lemma LoadedIdsStep(l: Ledger, i: nat)
    ensures LoadedIds(l, i + 1) == LoadedIds(l, i) + (if i in l.markets then [i] else [])
  {
  }

  // ---------------------------------------------------------------------------
  // Demonstration markets

  const MockCount: int := 5

  const MockMarketList: seq<MarketInfo> := [
    MarketInfo("0", "Will Bitcoin reach $100,000 by end of 2024?",
      "0x1234567890" + "abcdef1234" + "567890abcd" + "ef12345678",
      1735603200000, false, true, Some("2.5"), Some(87)),
    MarketInfo("1", "Will XO Market have 1000+ active users by Q1 2025?",
      "0xabcdef1234" + "567890abcd" + "ef12345678" + "90abcdef12",
      1743379200000, false, true, Some("1.8"), Some(52)),
    MarketInfo("2", "Will AI achieve breakthrough in prediction markets by 2025?",
      "0x9876543210" + "fedcba9876" + "543210fedc" + "ba98765432",
      1767139200000, false, true, Some("3.2"), Some(134)),
    MarketInfo("3", "Will Ethereum price exceed $5000 in 2025?",
      "0xfedcba9876" + "543210fedc" + "ba98765432" + "10fedcba98",
      1767139200000, false, true, Some("0.9"), Some(23)),
    MarketInfo("4", "Will decentralized prediction markets gain mainstream adoption?",
      "0x1111222233" + "3344445555" + "6666777788" + "8899990000",
      1769817600000, false, true, Some("4.1"), Some(98))
  ]

  /** `mockMarkets.slice(0, count)`, with `slice`'s treatment of a negative end. */
  function MockMarkets(count: int): (r: seq<MarketInfo>)
    ensures count >= 0 ==> |r| == Min(count, MockCount)
    ensures count < 0 ==> |r| == (if MockCount + count < 0 then 0 else MockCount + count)
    ensures r == MockMarketList[..|r|]
  {
    var end := if count < 0 then (if MockCount + count < 0 then 0 else MockCount + count) else Min(count, MockCount);
    MockMarketList[..end]
  }

  /** The demonstration markets are numbered "0" to "4" in order, unresolved and active. */
  lemma MockMarketsNumbered(count: int)
    ensures var r := MockMarkets(count);
      forall k :: 0 <= k < |r| ==> r[k].id == NatToString(k) && !r[k].resolved && r[k].active
  {
    var r := MockMarkets(count);
    forall k | 0 <= k < |r|
      ensures r[k].id == NatToString(k) && !r[k].resolved && r[k].active
    {
      assert r[k] == MockMarketList[k];
      if k == 0 { assert NatToString(0) == "0"; }
      else if k == 1 { assert NatToString(1) == "1"; }
      else if k == 2 { assert NatToString(2) == "2"; }
      else if k == 3 { assert NatToString(3) == "3"; }
      else { assert NatToString(4) == "4"; }
    }
  }

  // ---------------------------------------------------------------------------
  // getCurrentMarkets

  /** Where the list `getCurrentMarkets` returns comes from. */
  function CurrentMarkets(l: Ledger): (r: seq<MarketInfo>) {
    if !l.connected || !l.codeExists then MockMarkets(MockCount)
    else match l.totalMarkets
      case None =>
        if l.activeCount.Some? && l.activeCount.value > 0 then MockMarkets(l.activeCount.value)
        else MockMarkets(MockCount)
      case Some(total) =>
        var loaded := MarketsOf(l, LoadedIds(l, Min(total, MaxChainMarkets)));
        if |loaded| > 0 then loaded else MockMarkets(MockCount)
  }

  /**
    `getCurrentMarkets` never returns an empty list nor more than ten
    markets; without a connection or contract code, or when no market could
    be read, it returns the five demonstration markets; when `totalMarkets`
    fails and the active count is positive, the first `min(count, 5)` of them.
   */
  lemma CurrentMarketsFallbacks(l: Ledger)
    ensures var r := CurrentMarkets(l); 1 <= |r| <= MaxChainMarkets
    ensures !l.connected || !l.codeExists ==> CurrentMarkets(l) == MockMarketList
    ensures l.connected && l.codeExists && l.totalMarkets.None? ==>
      CurrentMarkets(l) == (if l.activeCount.Some? && l.activeCount.value > 0
                            then MockMarketList[..Min(l.activeCount.value, MockCount)] else MockMarketList)
    ensures (l.connected && l.codeExists && l.totalMarkets.Some?
             && LoadedIds(l, Min(l.totalMarkets.value, MaxChainMarkets)) == []) ==> CurrentMarkets(l) == MockMarketList
  {
    assert MockMarketList[..MockCount] == MockMarketList;
  }

  /**
    A list read from the chain holds exactly the markets `0 .. min(total, 10) - 1`
    whose read succeeded, in ascending id order, each id appearing once.
   */
  lemma {:induction false} CurrentMarketsFromChain(l: Ledger, total: int, i: nat)
    requires l.connected && l.codeExists && l.totalMarkets == Some(total)
    requires LoadedIds(l, Min(total, MaxChainMarkets)) != []
    ensures var r := CurrentMarkets(l);
      (exists k :: 0 <= k < |r| && r[k].id == NatToString(i)) <==> i < Min(total, MaxChainMarkets) && i in l.markets
  {
    var ids := LoadedIds(l, Min(total, MaxChainMarkets));
    LoadedIdsExactly(l, Min(total, MaxChainMarkets));
    var r := CurrentMarkets(l);
    assert r == MarketsOf(l, ids);
    if exists k :: 0 <= k < |r| && r[k].id == NatToString(i) {
      var k :| 0 <= k < |r| && r[k].id == NatToString(i);
      NatToStringInjective(ids[k], i);
    }
    if i < Min(total, MaxChainMarkets) && i in l.markets {
      var k :| 0 <= k < |ids| && ids[k] == i;
      assert r[k].id == NatToString(i);
    }
  }

  // ---------------------------------------------------------------------------
  // ABI

  /** An ABI entry as far as the reader looks at it: its `type` and its `name`. */
  datatype AbiEntry = AbiEntry(kind: string, name: Option<string>)

  const FallbackAbi: seq<AbiEntry> := [
    AbiEntry("function", Some("totalMarkets")),
    AbiEntry("function", Some("markets"))
  ]

  /** An element of the parsed array: `null`, or an object read as an `AbiEntry`. */
  datatype AbiItem = NullItem | Entry(entry: AbiEntry)

  /**
    `abi.json` as `loadContractABI` finds it: missing, not valid JSON, valid
    JSON that is not an array (`null`, an object, a number, a string or a
    boolean), or an array.
   */
  datatype AbiFile = NoFile | Unparsable | NotAnArray | ArrayOf(items: seq<AbiItem>)

  /** No element is `null`, so reading `item.type` never throws. */
  predicate NoNullItem(items: seq<AbiItem>) {
    forall k :: 0 <= k < |items| ==> items[k].Entry?
  }

  function Entries(items: seq<AbiItem>): (entries: seq<AbiEntry>)
    requires NoNullItem(items)
    ensures |entries| == |items|
    ensures forall k :: 0 <= k < |items| ==> entries[k] == items[k].entry
  {
    if items == [] then [] else [items[0].entry] + Entries(items[1..])
  }

  /**
    `loadContractABI`: an array without `null` elements is kept. Everything
    else ends in the fallback ABI: a missing file directly, and the rest
    because `JSON.parse`, `.length`, `.filter` or `item.type` throws and the
    catch installs it. So the loaded ABI is always an array.
   */
  function LoadAbi(file: AbiFile): (abi: seq<AbiEntry>)
    ensures file.ArrayOf? && NoNullItem(file.items) ==>
      |abi| == |file.items| && forall k :: 0 <= k < |abi| ==> Entry(abi[k]) == file.items[k]
    ensures !(file.ArrayOf? && NoNullItem(file.items)) ==> abi == FallbackAbi
  {
    if file.ArrayOf? && NoNullItem(file.items) then Entries(file.items) else FallbackAbi
  }

  predicate IsMethod(e: AbiEntry) {
    e.kind == "function" && e.name.Some? && e.name.value != []
  }

  /** `.filter(item => item.type === 'function').map(func => func.name).filter(Boolean)` */
  function MethodNames(entries: seq<AbiEntry>): (names: seq<string>)
    ensures |names| <= |entries|
    ensures forall k :: 0 <= k < |names| ==> names[k] != []
  {
    if entries == [] then []
    else (if IsMethod(entries[0]) then [entries[0].name.value] else []) + MethodNames(entries[1..])
  }

  /**
    `getAvailableMethods` on the loaded ABI. Its `!this.contractABI` test
    never fires, since the loaded ABI is an array and even an empty array is
    truthy.
   */
  function AvailableMethods(abi: seq<AbiEntry>): seq<string> {
    MethodNames(abi)
  }

  /** A name is listed exactly when some function entry carries it and it is non-empty. */
  lemma {:induction false} MethodNamesMembership(entries: seq<AbiEntry>, x: string)
    ensures x in MethodNames(entries) <==>
      exists k :: 0 <= k < |entries| && IsMethod(entries[k]) && entries[k].name.value == x
  {
    if entries != [] {
      MethodNamesMembership(entries[1..], x);
      if exists k :: 0 <= k < |entries| && IsMethod(entries[k]) && entries[k].name.value == x {
        var k :| 0 <= k < |entries| && IsMethod(entries[k]) && entries[k].name.value == x;
        if k > 0 {
          assert entries[1..][k - 1] == entries[k];
        }
      }
      if exists k :: 0 <= k < |entries| - 1 && IsMethod(entries[1..][k]) && entries[1..][k].name.value == x {
        var k :| 0 <= k < |entries| - 1 && IsMethod(entries[1..][k]) && entries[1..][k].name.value == x;
        assert entries[k + 1] == entries[1..][k];
      }
    }
  }

  /** The names keep ABI order: those of a concatenation are those of the parts, concatenated. */
  lemma {:induction false} MethodNamesAppend(a: seq<AbiEntry>, b: seq<AbiEntry>)
    ensures MethodNames(a + b) == MethodNames(a) + MethodNames(b)
  {
    if a == [] {
      assert a + b == b;
    } else {
      assert (a + b)[0] == a[0];
      assert (a + b)[1..] == a[1..] + b;
      MethodNamesAppend(a[1..], b);
    }
  }

  /**
    Without an `abi.json` holding an array free of `null` elements, the
    available methods are `totalMarkets` and `markets`; with one, they are
    the method names of its entries.
   */
  lemma FallbackMethods(file: AbiFile)
    ensures !(file.ArrayOf? && NoNullItem(file.items)) ==>
      AvailableMethods(LoadAbi(file)) == ["totalMarkets", "markets"]
    ensures file.ArrayOf? && NoNullItem(file.items) ==>
      forall x :: x in AvailableMethods(LoadAbi(file)) <==>
        exists k :: 0 <= k < |file.items| && IsMethod(file.items[k].entry) && file.items[k].entry.name.value == x
  {
    assert FallbackAbi[1..][1..] == [];
    if file.ArrayOf? && NoNullItem(file.items) {
      var abi := LoadAbi(file);
      forall x
        ensures x in AvailableMethods(abi) <==>
          exists k :: 0 <= k < |file.items| && IsMethod(file.items[k].entry) && file.items[k].entry.name.value == x
      {
        MethodNamesMembership(abi, x);
        if exists k :: 0 <= k < |abi| && IsMethod(abi[k]) && abi[k].name.value == x {
          var k :| 0 <= k < |abi| && IsMethod(abi[k]) && abi[k].name.value == x;
          assert file.items[k].entry == abi[k];
        }
      }
    }
  }
}
