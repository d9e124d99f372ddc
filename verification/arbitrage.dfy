/**
  The S&P 500 option arbitrage scanner: the transaction-cost formula, the
  put-call parity and put-call-futures parity rules applied to the first
  call and first put quoted at each strike, the selection of the most
  profitable opportunity per strike, and the filter that decides which
  option records are scanned at all. The discount factor e^(-rT) is a
  parameter `disc`.
*/
module Arbitrage {
  import opened Wrappers

  // Dollar value of one point of each instrument; one trade costs one point.
  const IndexPointValue: real := 1.0
  const FuturePointValue: real := 250.0
  const OptionPointValue: real := 100.0

  /** A positive factor the strike field is divided by to give the strike in
      index points. */
  type Scale = s: real | s > 0.0 witness 1.0

  /** The factor both parity rules divide the strike field by, and so the
      scale of every strike they record. */
  const WrittenStrikeScale: Scale := 100000.0

  /** Option strikes are quoted multiplied by 1000, as the option loader and
      the strike log read them: a strike field of 100000 is a strike of 100
      index points. */
  const StrikeScale: Scale := 1000.0

  /** How many points a call's ask lies below its value if exercised at once,
      S - K, with K the strike field read at the given scale. */
  function ExerciseShortfall(index: real, strikeField: real, callAsk: real, scale: Scale): real
  {
    (index - strikeField / scale) - callAsk
  }

  /** The sample option record of 3 November 2020, a call with strike field
      100000 offered at 3268.7, against the S&P 500 at 3369.20 that day. Read
      at the written scale its strike is 1 point, and the call is offered
      99.5 points, $9950 a contract, below what exercising it is worth: no
      quoted market prices a call so. */
  lemma SampleStrikeAsWritten()
    ensures 100000.0 / WrittenStrikeScale == 1.0
    ensures ExerciseShortfall(3369.20, 100000.0, 3268.7, WrittenStrikeScale) == 99.5
  {
  }

  /** The same record read at the corrected scale: its strike is 100 points,
      the level the strike log prints, and the call's ask is within a point
      of its exercise value. */
  lemma SampleStrikeCorrected()
    ensures 100000.0 / StrikeScale == 100.0
    ensures -1.0 < ExerciseShortfall(3369.20, 100000.0, 3268.7, StrikeScale) < 1.0
  {
  }

  /** Dollar cost of trading the given numbers of index units, futures and
      options, one point value per trade. */
  function TransactionCost(numIndex: int, numFutures: int, numOptions: int): (cost: real)
    ensures numIndex >= 0 && numFutures >= 0 && numOptions >= 0 ==> cost >= 0.0
  {
    numIndex as real * IndexPointValue + numFutures as real * FuturePointValue
    + numOptions as real * OptionPointValue
  }

  /** The cost of a combined trade is the sum of the costs of its parts. */
  lemma TransactionCostAdditive(a1: int, b1: int, c1: int, a2: int, b2: int, c2: int)
    ensures TransactionCost(a1 + a2, b1 + b2, c1 + c2)
         == TransactionCost(a1, b1, c1) + TransactionCost(a2, b2, c2)
  {
  }

  /** The strategies' costs: one index trade and two option trades for the
      put-call parity strategies, one futures trade and two option trades for
      the put-call-futures parity strategies. */
  lemma StrategyCosts()
    ensures TransactionCost(1, 0, 2) == 201.0
    ensures TransactionCost(0, 1, 2) == 450.0
  {
  }

  /** Quotes of the underlying index and its future; a flag says whether each
      was loaded. */
  datatype Market = Market(
    indexBid: real, indexAsk: real,
    futureBid: real, futureAsk: real,
    hasIndex: bool, hasFuture: bool)

  /** One option record: 'C' or 'P', the exercise style ('E' for European),
      the scaled strike and the best bid and offer. */
  datatype OptionQuote = OptionQuote(
    cpFlag: char, exerciseStyle: char, strike: real, bestBid: real, bestOffer: real)

  datatype Strategy =
    | LongCallShortPutLongIndex     // put-call parity, C - P too cheap
    | ShortCallLongPutShortIndex    // put-call parity, C - P too dear
    | LongCallShortPutShortFuture   // put-call-futures parity, C - P too dear
    | ShortCallLongPutLongFuture    // put-call-futures parity, C - P too cheap

  predicate UsesIndex(s: Strategy)
  {
    s == LongCallShortPutLongIndex || s == ShortCallLongPutShortIndex
  }

  /** A recorded opportunity: its net dollar profit and the strike in points. */
  datatype Opportunity = Opportunity(strategy: Strategy, profit: real, strike: real)

  /** A rule fires when the price gap, in points, exceeds the cost in points;
      it then records the gap in dollars less the cost. */
  function Record(strategy: Strategy, gap: real, cost: real, k: real): (opps: seq<Opportunity>)
    ensures |opps| <= 1
    ensures opps != [] <==> gap > cost / OptionPointValue
    ensures forall o :: o in opps ==>
              o.profit > 0.0 && o.strategy == strategy && o.strike == k
              && o.profit == gap * OptionPointValue - cost
  {
    if gap > cost / OptionPointValue then [Opportunity(strategy, gap * OptionPointValue - cost, k)] else []
  }

  /** What C - P should be under put-call parity: S - K e^(-rT), with S the
      index mid price and K the call's strike field divided by the scale. */
  function IndexParity(m: Market, disc: real, scale: Scale, call: OptionQuote): real
  {
    (m.indexBid + m.indexAsk) / 2.0 - call.strike / scale * disc
  }

  /** What C - P should be under put-call-futures parity: (F - K) e^(-rT),
      written F e^(-rT) - K e^(-rT), with F the future's mid price. */
  function FuturesParity(m: Market, disc: real, scale: Scale, call: OptionQuote): real
  {
    (m.futureBid + m.futureAsk) / 2.0 * disc - call.strike / scale * disc
  }

  /** C - P at the prices one trades at: buying the call and selling the put
      (the high side) or selling the call and buying the put (the low side). */
  function HighSide(call: OptionQuote, put: OptionQuote): real
  {
    call.bestOffer - put.bestBid
  }

  function LowSide(call: OptionQuote, put: OptionQuote): real
  {
    call.bestBid - put.bestOffer
  }

  /**
    Put-call parity for one call and one put: nothing unless the strikes
    agree; otherwise the long-call strategy when the low side falls short of
    parity by more than the $201 of costs in points, and the short-call
    strategy when the high side exceeds parity by as much.
  */
  function ScanPutCallParity(m: Market, disc: real, scale: Scale, call: OptionQuote, put: OptionQuote): (opps: seq<Opportunity>)
    ensures call.strike != put.strike ==> opps == []
    ensures |opps| <= 2
    ensures forall o :: o in opps ==>
              o.profit > 0.0 && o.strike == call.strike / scale && UsesIndex(o.strategy)
    ensures forall o :: o in opps ==>
              o.profit == Gap(m, disc, scale, call, put, o.strategy) * OptionPointValue - StrategyCost(o.strategy)
    ensures (exists o :: o in opps && o.strategy == LongCallShortPutLongIndex)
        <==> call.strike == put.strike && IndexParity(m, disc, scale, call) - LowSide(call, put) > 2.01
    ensures (exists o :: o in opps && o.strategy == ShortCallLongPutShortIndex)
        <==> call.strike == put.strike && HighSide(call, put) - IndexParity(m, disc, scale, call) > 2.01
  {
    if call.strike != put.strike then []
    else
      var k := call.strike / scale;
      var theoretical := IndexParity(m, disc, scale, call);
      var cost := TransactionCost(1, 0, 2);
      var first := Record(LongCallShortPutLongIndex, theoretical - LowSide(call, put), cost, k);
      var second := Record(ShortCallLongPutShortIndex, HighSide(call, put) - theoretical, cost, k);
      assert forall o :: o in first + second <==> o in first || o in second;
      first + second
  }

  /**
    Put-call-futures parity for one call and one put: nothing unless the
    strikes agree and a future is quoted; otherwise the long-call strategy
    when the high side exceeds parity by more than the $450 of costs in
    points, and the short-call strategy when the low side falls short of it
    by as much.
  */
  function ScanPutCallFuturesParity(m: Market, disc: real, scale: Scale, call: OptionQuote, put: OptionQuote): (opps: seq<Opportunity>)
    ensures call.strike != put.strike || !m.hasFuture ==> opps == []
    ensures |opps| <= 2
    ensures forall o :: o in opps ==>
              o.profit > 0.0 && o.strike == call.strike / scale && !UsesIndex(o.strategy)
    ensures forall o :: o in opps ==>
              o.profit == Gap(m, disc, scale, call, put, o.strategy) * OptionPointValue - StrategyCost(o.strategy)
    ensures (exists o :: o in opps && o.strategy == LongCallShortPutShortFuture)
        <==> call.strike == put.strike && m.hasFuture && HighSide(call, put) - FuturesParity(m, disc, scale, call) > 4.5
    ensures (exists o :: o in opps && o.strategy == ShortCallLongPutLongFuture)
        <==> call.strike == put.strike && m.hasFuture && FuturesParity(m, disc, scale, call) - LowSide(call, put) > 4.5
  {
    if call.strike != put.strike || !m.hasFuture then []
    else
      var k := call.strike / scale;
      var theoretical := FuturesParity(m, disc, scale, call);
      var cost := TransactionCost(0, 1, 2);
      var first := Record(LongCallShortPutShortFuture, HighSide(call, put) - theoretical, cost, k);
      var second := Record(ShortCallLongPutLongFuture, theoretical - LowSide(call, put), cost, k);
      assert forall o :: o in first + second <==> o in first || o in second;
      first + second
  }

  /** The index at its close of 3 November 2020, quoted without a spread;
      no future is loaded. */
  const SampleMarket: Market := Market(3369.20, 3369.20, 0.0, 0.0, true, false)

  /** The sample call record of that day: strike field 100000, bid 3263.4,
      offer 3268.7. */
  const SampleCall: OptionQuote := OptionQuote('C', 'E', 100000.0, 3263.4, 3268.7)

  /** A put at the same strike field, bid 0.05 and offered at 0.10. */
  const SamplePut: OptionQuote := OptionQuote('P', 'E', 100000.0, 0.05, 0.10)

  /** The scan of the sample strike as the program is written, with no
      discounting: the long-call rule takes the strike for 1 point, sees the
      low side 104.9 points under parity, and records $10289 at strike 1. */
  lemma SampleScanAsWritten()
    ensures ScanStrike(SampleMarket, 1.0, WrittenStrikeScale, [SampleCall, SamplePut])
         == [Opportunity(LongCallShortPutLongIndex, 10289.0, 1.0)]
  {
    SamplePaired();
    var k := 100000.0 / WrittenStrikeScale;
    assert k == 1.0;
    assert IndexParity(SampleMarket, 1.0, WrittenStrikeScale, SampleCall) == 3369.20 - 1.0;
    assert Record(LongCallShortPutLongIndex, 3369.20 - 1.0 - 3263.3, 201.0, k)
        == [Opportunity(LongCallShortPutLongIndex, 10289.0, 1.0)];
    assert Record(ShortCallLongPutShortIndex, 3268.65 - (3369.20 - 1.0), 201.0, k) == [];
  }

  /** The same scan at the corrected scale: the strike is 100 points, the low
      side is 5.9 points under parity, and $389 is recorded at strike 100. */
  lemma SampleScanCorrected()
    ensures ScanStrike(SampleMarket, 1.0, StrikeScale, [SampleCall, SamplePut])
         == [Opportunity(LongCallShortPutLongIndex, 389.0, 100.0)]
  {
    SamplePaired();
    var k := 100000.0 / StrikeScale;
    assert k == 100.0;
    assert IndexParity(SampleMarket, 1.0, StrikeScale, SampleCall) == 3369.20 - 100.0;
    assert Record(LongCallShortPutLongIndex, 3369.20 - 100.0 - 3263.3, 201.0, k)
        == [Opportunity(LongCallShortPutLongIndex, 389.0, 100.0)];
    assert Record(ShortCallLongPutShortIndex, 3268.65 - (3369.20 - 100.0), 201.0, k) == [];
  }

  /** The sample pair's first call and first put are the two records. */
  lemma SamplePaired()
    ensures Paired([SampleCall, SamplePut])
    ensures FirstCall([SampleCall, SamplePut]) == SampleCall
    ensures FirstPut([SampleCall, SamplePut]) == SamplePut
  {
    assert [SampleCall, SamplePut][1..] == [SamplePut];
  }

  /** The position of the first quote with the given flag. */
  function FirstWithFlag(group: seq<OptionQuote>, flag: char): (found: Option<nat>)
    ensures found.None? <==> forall j :: 0 <= j < |group| ==> group[j].cpFlag != flag
    ensures found.Some? ==>
              && found.value < |group| && group[found.value].cpFlag == flag
              && forall j :: 0 <= j < found.value ==> group[j].cpFlag != flag
  {
    if group == [] then None
    else if group[0].cpFlag == flag then Some(0)
    else
      var rest := FirstWithFlag(group[1..], flag);
      if rest.None? then None else Some(rest.value + 1)
  }

  /**
    The scanner's pairing loop over the quotes of one strike: the first 'C'
    becomes the call and the first 'P' the put; later ones are ignored.
  */
  method PairCallPut(group: seq<OptionQuote>) returns (call: Option<nat>, put: Option<nat>)
    ensures call == FirstWithFlag(group, 'C')
    ensures put == FirstWithFlag(group, 'P')
  {
    call, put := None, None;
    var i := 0;
    while i < |group|
      invariant 0 <= i <= |group|
      invariant call == FirstWithFlag(group[..i], 'C')
      invariant put == FirstWithFlag(group[..i], 'P')
    {
      FirstWithFlagExtend(group, i, 'C');
      FirstWithFlagExtend(group, i, 'P');
      if group[i].cpFlag == 'C' && !call.Some? {
        call := Some(i);
      } else if group[i].cpFlag == 'P' && !put.Some? {
        put := Some(i);
      }
      i := i + 1;
    }
    assert group[..|group|] == group;
  }

  /** Looking one quote further finds that quote only when none before it
      carried the flag. */
  lemma FirstWithFlagExtend(group: seq<OptionQuote>, i: nat, flag: char)
    requires i < |group|
    ensures FirstWithFlag(group[..i + 1], flag)
         == if FirstWithFlag(group[..i], flag).Some? then FirstWithFlag(group[..i], flag)
            else if group[i].cpFlag == flag then Some(i)
            else None
  {
    var a := FirstWithFlag(group[..i], flag);
    var b := FirstWithFlag(group[..i + 1], flag);
    assert forall j :: 0 <= j < i ==> group[..i + 1][j] == group[..i][j];
    if a.Some? {
      assert b.Some? && b.value == a.value;
    } else if group[i].cpFlag == flag {
      assert group[..i + 1][i] == group[i];
      assert b.Some? && b.value == i;
    }
  }

  /** The elements of s that `keep` accepts, in their order in s. */
  function Filter<T(!new)>(s: seq<T>, keep: T -> bool): (kept: seq<T>)
    ensures |kept| <= |s|
    ensures forall x :: x in kept <==> x in s && keep(x)
  {
    if s == [] then []
    else (if keep(s[0]) then [s[0]] else []) + Filter(s[1..], keep)
  }

  /** Filtering a concatenation filters each part in turn: filtering keeps
      the input order. */
  lemma {:induction false} FilterAppend<T(!new)>(a: seq<T>, b: seq<T>, keep: T -> bool)
    ensures Filter(a + b, keep) == Filter(a, keep) + Filter(b, keep)
  {
    if a == [] {
      assert a + b == b;
    } else {
      var head := if keep(a[0]) then [a[0]] else [];
      assert (a + b)[0] == a[0];
      assert (a + b)[1..] == a[1..] + b;
      FilterAppend(a[1..], b, keep);
      calc {
        Filter(a + b, keep);
        head + Filter(a[1..] + b, keep);
        head + (Filter(a[1..], keep) + Filter(b, keep));
        (head + Filter(a[1..], keep)) + Filter(b, keep);
        Filter(a, keep) + Filter(b, keep);
      }
    }
  }

  /** The loader keeps European options with positive bid and offer. */
  predicate Retained(o: OptionQuote)
  {
    o.exerciseStyle == 'E' && o.bestBid > 0.0 && o.bestOffer > 0.0
  }

  /** The options the scanner works on, in the order they were read. */
  function RetainOptions(parsed: seq<OptionQuote>): (kept: seq<OptionQuote>)
    ensures forall o :: o in kept <==>
              o in parsed && o.exerciseStyle == 'E' && o.bestBid > 0.0 && o.bestOffer > 0.0
  {
    Filter(parsed, Retained)
  }

  /** Records are filtered one line at a time: the records of two files read
      back to back are those of each file, in order. */
  lemma RetainLineByLine(a: seq<OptionQuote>, b: seq<OptionQuote>)
    ensures RetainOptions(a + b) == RetainOptions(a) + RetainOptions(b)
  {
    FilterAppend(a, b, Retained);
  }

  predicate StrictlyIncreasing(s: seq<real>)
  {
    forall i, j :: 0 <= i < j < |s| ==> s[i] < s[j]
  }

  /** Insert a key into a strictly increasing key list, as a sorted map does. */
  function InsertKey(keys: seq<real>, x: real): (r: seq<real>)
    requires StrictlyIncreasing(keys)
    ensures StrictlyIncreasing(r)
    ensures forall y :: y in r <==> y in keys || y == x
  {
    if keys == [] then [x]
    else if x < keys[0] then [x] + keys
    else if x == keys[0] then keys
    else
      var rest := InsertKey(keys[1..], x);
      TailAbove(keys);
      PrependKey(keys[0], rest);
      [keys[0]] + rest
  }

  /** In a strictly increasing list every later key is above the first. */
  lemma TailAbove(keys: seq<real>)
    requires keys != [] && StrictlyIncreasing(keys)
    ensures forall y :: y in keys[1..] ==> keys[0] < y
  {
    assert forall i :: 0 <= i < |keys| - 1 ==> keys[1..][i] == keys[i + 1];
  }

  /** A key below all of a strictly increasing list keeps it so in front. */
  lemma PrependKey(k: real, rest: seq<real>)
    requires StrictlyIncreasing(rest)
    requires forall y :: y in rest ==> k < y
    ensures StrictlyIncreasing([k] + rest)
  {
    assert forall j :: 0 <= j < |rest| ==> rest[j] in rest;
  }

  /** The distinct values of xs in increasing order: the iteration order of a
      map keyed by them. */
  function OrderedKeys(xs: seq<real>): (keys: seq<real>)
    ensures StrictlyIncreasing(keys)
    ensures forall y :: y in keys <==> y in xs
  {
    if xs == [] then []
    else InsertKey(OrderedKeys(xs[..|xs| - 1]), xs[|xs| - 1])
  }

  /** The key of each element, in order: the strikes a map keyed by strike
      is built from. */
  function KeysOf<T>(s: seq<T>, key: T -> real): (ks: seq<real>)
    ensures |ks| == |s|
    ensures forall i :: 0 <= i < |s| ==> ks[i] == key(s[i])
  {
    seq(|s|, i requires 0 <= i < |s| => key(s[i]))
  }

  function QuoteStrike(q: OptionQuote): real
  {
    q.strike
  }

  function OpportunityStrike(o: Opportunity): real
  {
    o.strike
  }

  /** The group holds both a call and a put. */
  predicate Paired(group: seq<OptionQuote>)
  {
    FirstWithFlag(group, 'C').Some? && FirstWithFlag(group, 'P').Some?
  }

  /** The call the pairing loop keeps: the first one of the group. */
  function FirstCall(group: seq<OptionQuote>): (call: OptionQuote)
    requires Paired(group)
    ensures call in group && call.cpFlag == 'C'
  {
    group[FirstWithFlag(group, 'C').value]
  }

  /** The put the pairing loop keeps: the first one of the group. */
  function FirstPut(group: seq<OptionQuote>): (put: OptionQuote)
    requires Paired(group)
    ensures put in group && put.cpFlag == 'P'
  {
    group[FirstWithFlag(group, 'P').value]
  }

  /** The dollar cost of a strategy's trades. */
  function StrategyCost(s: Strategy): real
  {
    if UsesIndex(s) then TransactionCost(1, 0, 2) else TransactionCost(0, 1, 2)
  }

  /** The quote a strategy trades besides the two options was loaded. */
  predicate Quoted(m: Market, s: Strategy)
  {
    if UsesIndex(s) then m.hasIndex else m.hasFuture
  }

  /** How far, in points, the prices a strategy trades at stray from parity
      in the direction the strategy profits from. */
  function Gap(m: Market, disc: real, scale: Scale, call: OptionQuote, put: OptionQuote, s: Strategy): real
  {
    match s
    case LongCallShortPutLongIndex => IndexParity(m, disc, scale, call) - LowSide(call, put)
    case ShortCallLongPutShortIndex => HighSide(call, put) - IndexParity(m, disc, scale, call)
    case LongCallShortPutShortFuture => HighSide(call, put) - FuturesParity(m, disc, scale, call)
    case ShortCallLongPutLongFuture => FuturesParity(m, disc, scale, call) - LowSide(call, put)
  }

  /**
    A strategy's rule fires for a group of quotes: the group holds a call
    and a put, the first call and first put share their strike, the quote
    the strategy needs was loaded, and the gap exceeds the cost in points.
  */
  predicate Fires(m: Market, disc: real, scale: Scale, group: seq<OptionQuote>, s: Strategy)
  {
    && Paired(group)
    && FirstCall(group).strike == FirstPut(group).strike
    && Quoted(m, s)
    && Gap(m, disc, scale, FirstCall(group), FirstPut(group), s) > StrategyCost(s) / OptionPointValue
  }

  /** Strategy s's rule fires for the quotes of strike k. */
  predicate FiresAt(m: Market, disc: real, scale: Scale, options: seq<OptionQuote>, k: real, s: Strategy)
  {
    Fires(m, disc, scale, AtStrike(options, k), s)
  }

  /**
    One strike's quotes, in input order: if they hold both a call and a put,
    the first call and the first put go through the put-call parity rules
    when the index is quoted and through the put-call-futures rules when the
    future is. Exactly the strategies whose rule fires are recorded, each
    with its gap in dollars less its cost, at the first call's strike.
  */
  function ScanStrike(m: Market, disc: real, scale: Scale, group: seq<OptionQuote>): (opps: seq<Opportunity>)
    ensures forall o :: o in opps ==> o.profit > 0.0
    ensures forall o :: o in opps ==> exists q :: q in group && o.strike == q.strike / scale
    ensures forall o :: o in opps && UsesIndex(o.strategy) ==> m.hasIndex
    ensures forall o :: o in opps && !UsesIndex(o.strategy) ==> m.hasFuture
    ensures !Paired(group) ==> opps == []
  {
    if !Paired(group) then []
    else
      var call := FirstCall(group);
      var put := FirstPut(group);
      var a := if m.hasIndex then ScanPutCallParity(m, disc, scale, call, put) else [];
      var b := if m.hasFuture then ScanPutCallFuturesParity(m, disc, scale, call, put) else [];
      assert forall o :: o in a + b <==> o in a || o in b;
      a + b
  }

  /** A strike's scan records a strategy exactly when its rule fires, and
      prices each record at the group's first call and first put: the
      strike is theirs, scaled, and the profit is the rule's gap in money
      less the strategy's cost. */
  lemma ScanStrikeIffFires(m: Market, disc: real, scale: Scale, group: seq<OptionQuote>)
    ensures forall s :: Fires(m, disc, scale, group, s) <==> exists o :: o in ScanStrike(m, disc, scale, group) && o.strategy == s
    ensures forall o :: o in ScanStrike(m, disc, scale, group) ==>
              && Paired(group)
              && o.strike == FirstCall(group).strike / scale
              && o.profit == Gap(m, disc, scale, FirstCall(group), FirstPut(group), o.strategy) * OptionPointValue
                             - StrategyCost(o.strategy)
  {
    if Paired(group) {
      var call := FirstCall(group);
      var put := FirstPut(group);
      var a := if m.hasIndex then ScanPutCallParity(m, disc, scale, call, put) else [];
      var b := if m.hasFuture then ScanPutCallFuturesParity(m, disc, scale, call, put) else [];
      assert ScanStrike(m, disc, scale, group) == a + b;
      ScanStrikeFires(m, disc, scale, group, a, b);
    }
  }

  /** The recorded strategies of ScanStrike's two halves are exactly those
      whose rule fires. */
  lemma ScanStrikeFires(m: Market, disc: real, scale: Scale, group: seq<OptionQuote>, a: seq<Opportunity>, b: seq<Opportunity>)
    requires Paired(group)
    requires a == if m.hasIndex then ScanPutCallParity(m, disc, scale, FirstCall(group), FirstPut(group)) else []
    requires b == if m.hasFuture then ScanPutCallFuturesParity(m, disc, scale, FirstCall(group), FirstPut(group)) else []
    ensures forall o :: o in a + b <==> o in a || o in b
    ensures forall s :: Fires(m, disc, scale, group, s) <==> exists o :: o in a + b && o.strategy == s
  {
    assert forall o :: o in a + b <==> o in a || o in b;
    IndexRulesFire(m, disc, scale, group, a);
    FuturesRulesFire(m, disc, scale, group, b);
    forall s ensures Fires(m, disc, scale, group, s) <==> exists o :: o in a + b && o.strategy == s
    {
      if UsesIndex(s) {
        if o :| o in a + b && o.strategy == s {
          assert o in a;
        }
      } else {
        if o :| o in a + b && o.strategy == s {
          assert o in b;
        }
      }
    }
  }

  /** The put-call parity half records exactly the index strategies that fire. */
  lemma IndexRulesFire(m: Market, disc: real, scale: Scale, group: seq<OptionQuote>, a: seq<Opportunity>)
    requires Paired(group)
    requires a == if m.hasIndex then ScanPutCallParity(m, disc, scale, FirstCall(group), FirstPut(group)) else []
    ensures forall o :: o in a ==> UsesIndex(o.strategy)
    ensures forall s :: UsesIndex(s) ==> (Fires(m, disc, scale, group, s) <==> exists o :: o in a && o.strategy == s)
  {
    assert StrategyCost(LongCallShortPutLongIndex) / OptionPointValue == 2.01;
    assert StrategyCost(ShortCallLongPutShortIndex) / OptionPointValue == 2.01;
  }

  /** The put-call-futures parity half records exactly the futures strategies
      that fire. */
  lemma FuturesRulesFire(m: Market, disc: real, scale: Scale, group: seq<OptionQuote>, b: seq<Opportunity>)
    requires Paired(group)
    requires b == if m.hasFuture then ScanPutCallFuturesParity(m, disc, scale, FirstCall(group), FirstPut(group)) else []
    ensures forall o :: o in b ==> !UsesIndex(o.strategy)
    ensures forall s :: !UsesIndex(s) ==> (Fires(m, disc, scale, group, s) <==> exists o :: o in b && o.strategy == s)
  {
    assert StrategyCost(LongCallShortPutShortFuture) / OptionPointValue == 4.5;
    assert StrategyCost(ShortCallLongPutLongFuture) / OptionPointValue == 4.5;
  }

  /** The rule test of a strike's group: whatever fires is recorded at that
      strike, and whatever is recorded fired. */
  lemma ScanStrikeAt(m: Market, disc: real, scale: Scale, options: seq<OptionQuote>, k: real)
    ensures forall s :: Fires(m, disc, scale, AtStrike(options, k), s) ==>
              exists o :: o in ScanStrike(m, disc, scale, AtStrike(options, k)) && o.strategy == s && o.strike == k / scale
    ensures forall o :: o in ScanStrike(m, disc, scale, AtStrike(options, k)) ==>
              Fires(m, disc, scale, AtStrike(options, k), o.strategy) && o.strike == k / scale
  {
    var group := AtStrike(options, k);
    var opps := ScanStrike(m, disc, scale, group);
    ScanStrikeIffFires(m, disc, scale, group);
    if Paired(group) {
      assert FirstCall(group).strike == k;
    }
    forall o | o in opps
      ensures Fires(m, disc, scale, group, o.strategy)
    {
      assert exists o' :: o' in opps && o'.strategy == o.strategy;
    }
  }

  /** Quotes with strike k. */
  function HasStrike(k: real): OptionQuote -> bool
  {
    (q: OptionQuote) => q.strike == k
  }

  /** The quotes whose strike is k, in input order. */
  function AtStrike(options: seq<OptionQuote>, k: real): (group: seq<OptionQuote>)
    ensures forall q :: q in group <==> q in options && q.strike == k
  {
    Filter(options, HasStrike(k))
  }

  /** Grouping keeps the input order: the group of two runs of quotes read
      back to back is the group of each, in order, and a single quote is
      its own group exactly when it has the strike. */
  lemma AtStrikeInOrder(a: seq<OptionQuote>, b: seq<OptionQuote>, k: real)
    ensures AtStrike(a + b, k) == AtStrike(a, k) + AtStrike(b, k)
    ensures forall q :: AtStrike([q], k) == if q.strike == k then [q] else []
  {
    FilterAppend(a, b, HasStrike(k));
    forall q ensures AtStrike([q], k) == if q.strike == k then [q] else [] {
      assert [q][1..] == [];
    }
  }

  /** The scan over the strikes in the given order. */
  function ScanKeys(m: Market, disc: real, scale: Scale, options: seq<OptionQuote>, keys: seq<real>): (opps: seq<Opportunity>)
    ensures forall o :: o in opps ==> o.profit > 0.0
    ensures forall o :: o in opps ==> exists q :: q in options && o.strike == q.strike / scale
    ensures forall o :: o in opps && UsesIndex(o.strategy) ==> m.hasIndex
    ensures forall o :: o in opps && !UsesIndex(o.strategy) ==> m.hasFuture
    ensures (forall q :: q in options ==> q.cpFlag != 'P') ==> opps == []
  {
    if keys == [] then []
    else
      var group := AtStrike(options, keys[0]);
      var here := ScanStrike(m, disc, scale, group);
      var rest := ScanKeys(m, disc, scale, options, keys[1..]);
      assert forall o :: o in here + rest <==> o in here || o in rest;
      here + rest
  }

  /** A key other than the first is in the rest of the list. */
  lemma InTail(keys: seq<real>, k: real)
    requires k in keys && k != keys[0]
    ensures k in keys[1..]
  {
    var i :| 0 <= i < |keys| && keys[i] == k;
    assert keys[1..][i - 1] == k;
  }

  /** The scan over a list of strikes holds exactly what the scans at each of
      them hold: forward. */
  lemma {:induction false} ScanKeysHolds(m: Market, disc: real, scale: Scale, options: seq<OptionQuote>, keys: seq<real>, k: real, o: Opportunity)
    requires k in keys && o in ScanStrike(m, disc, scale, AtStrike(options, k))
    ensures o in ScanKeys(m, disc, scale, options, keys)
  {
    var here := ScanStrike(m, disc, scale, AtStrike(options, keys[0]));
    var rest := ScanKeys(m, disc, scale, options, keys[1..]);
    assert ScanKeys(m, disc, scale, options, keys) == here + rest;
    if k != keys[0] {
      InTail(keys, k);
      ScanKeysHolds(m, disc, scale, options, keys[1..], k, o);
    }
  }

  /** The scan over a list of strikes holds exactly what the scans at each of
      them hold: backward. */
  lemma {:induction false} ScanKeysFrom(m: Market, disc: real, scale: Scale, options: seq<OptionQuote>, keys: seq<real>, o: Opportunity)
    requires o in ScanKeys(m, disc, scale, options, keys)
    ensures exists k :: k in keys && o in ScanStrike(m, disc, scale, AtStrike(options, k))
  {
    var here := ScanStrike(m, disc, scale, AtStrike(options, keys[0]));
    var rest := ScanKeys(m, disc, scale, options, keys[1..]);
    assert ScanKeys(m, disc, scale, options, keys) == here + rest;
    if o !in here {
      ScanKeysFrom(m, disc, scale, options, keys[1..], o);
      var k :| k in keys[1..] && o in ScanStrike(m, disc, scale, AtStrike(options, k));
      assert k in keys;
    }
  }

  /** Over a list of strikes, a rule that fires at one of them is recorded at
      it, and every recorded opportunity fired at one of them. */
  lemma ScanKeysFiring(m: Market, disc: real, scale: Scale, options: seq<OptionQuote>, keys: seq<real>)
    ensures forall k, s :: k in keys && FiresAt(m, disc, scale, options, k, s) ==>
              exists o :: o in ScanKeys(m, disc, scale, options, keys) && o.strategy == s && o.strike == k / scale
    ensures forall o :: o in ScanKeys(m, disc, scale, options, keys) ==>
              exists k :: k in keys && Fires(m, disc, scale, AtStrike(options, k), o.strategy) && o.strike == k / scale
  {
    forall k, s | k in keys && FiresAt(m, disc, scale, options, k, s)
      ensures exists o :: o in ScanKeys(m, disc, scale, options, keys) && o.strategy == s && o.strike == k / scale
    {
      ScanStrikeAt(m, disc, scale, options, k);
      var o :| o in ScanStrike(m, disc, scale, AtStrike(options, k)) && o.strategy == s && o.strike == k / scale;
      ScanKeysHolds(m, disc, scale, options, keys, k, o);
    }
    forall o | o in ScanKeys(m, disc, scale, options, keys)
      ensures exists k :: k in keys && Fires(m, disc, scale, AtStrike(options, k), o.strategy) && o.strike == k / scale
    {
      ScanKeysFrom(m, disc, scale, options, keys, o);
      var k :| k in keys && o in ScanStrike(m, disc, scale, AtStrike(options, k));
      ScanStrikeAt(m, disc, scale, options, k);
    }
  }

  /**
    The scanner: group the options by strike and visit the strikes in
    increasing order, pairing and checking each. A rule that fires for the
    first call and first put of any strike is recorded at that strike, and
    every recorded opportunity is one that fired; each is profitable after
    costs, index strategies need the index quote and futures strategies the
    future quote, and without a put nothing is found.
  */
  function ScanAll(m: Market, disc: real, scale: Scale, options: seq<OptionQuote>): (opps: seq<Opportunity>)
    ensures forall o :: o in opps ==> o.profit > 0.0
    ensures forall o :: o in opps ==> exists q :: q in options && o.strike == q.strike / scale
    ensures forall o :: o in opps && UsesIndex(o.strategy) ==> m.hasIndex
    ensures forall o :: o in opps && !UsesIndex(o.strategy) ==> m.hasFuture
    ensures !m.hasIndex && !m.hasFuture ==> opps == []
    ensures (forall q :: q in options ==> q.cpFlag != 'P') ==> opps == []
    ensures forall k, s :: FiresAt(m, disc, scale, options, k, s) ==>
              exists o :: o in opps && o.strategy == s && o.strike == k / scale
  {
    var opps := ScanKeys(m, disc, scale, options, OrderedKeys(KeysOf(options, QuoteStrike)));
    ScanAllFires(m, disc, scale, options);
    assert opps != [] ==> opps[0] in opps;
    opps
  }

  /** Over the scanned strikes, what fires is recorded and what is recorded
      fired. */
  lemma ScanAllFires(m: Market, disc: real, scale: Scale, options: seq<OptionQuote>)
    ensures forall k, s :: FiresAt(m, disc, scale, options, k, s) ==>
              exists o :: o in ScanKeys(m, disc, scale, options, OrderedKeys(KeysOf(options, QuoteStrike)))
                          && o.strategy == s && o.strike == k / scale
    ensures forall o :: o in ScanKeys(m, disc, scale, options, OrderedKeys(KeysOf(options, QuoteStrike))) ==>
              exists k :: Fires(m, disc, scale, AtStrike(options, k), o.strategy) && o.strike == k / scale
  {
    var keys := OrderedKeys(KeysOf(options, QuoteStrike));
    FiringStrikesScanned(m, disc, scale, options);
    ScanKeysFiring(m, disc, scale, options, keys);
  }

  /** Every opportunity the scanner records is one whose rule fired for the
      first call and first put of its strike: the strike field of that
      group is the recorded strike, unscaled. */
  lemma RecordedFired(m: Market, disc: real, scale: Scale, options: seq<OptionQuote>, o: Opportunity)
    requires o in ScanAll(m, disc, scale, options)
    ensures FiresAt(m, disc, scale, options, FieldOf(o.strike, scale), o.strategy)
  {
    var keys := OrderedKeys(KeysOf(options, QuoteStrike));
    assert o in ScanKeys(m, disc, scale, options, keys);
    var k := RecordedAt(m, disc, scale, options, keys, o);
    FiresAtField(m, disc, scale, options, o.strike, k, o.strategy);
  }

  /** The strike of the scan over a list of strikes at which a record was
      made: its rule fired there and the record carries it scaled. */
  lemma RecordedAt(m: Market, disc: real, scale: Scale, options: seq<OptionQuote>, keys: seq<real>, o: Opportunity)
    returns (k: real)
    requires o in ScanKeys(m, disc, scale, options, keys)
    ensures k in keys && Fires(m, disc, scale, AtStrike(options, k), o.strategy) && o.strike == k / scale
  {
    ScanKeysFrom(m, disc, scale, options, keys, o);
    k :| k in keys && o in ScanStrike(m, disc, scale, AtStrike(options, k));
    ScanStrikeAt(m, disc, scale, options, k);
  }

  /** The strike field a strike in points was read from at the given scale. */
  function FieldOf(strike: real, scale: Scale): real
  {
    strike * scale
  }

  /** A rule that fires at strike field k fires at the field its recorded
      strike k / scale is read back to. */
  lemma FiresAtField(m: Market, disc: real, scale: Scale, options: seq<OptionQuote>, x: real, k: real, s: Strategy)
    requires Fires(m, disc, scale, AtStrike(options, k), s) && x == k / scale
    ensures FiresAt(m, disc, scale, options, FieldOf(x, scale), s)
  {
    assert FieldOf(x, scale) == k;
  }

  /** The scanner finds something exactly when some rule fires at some strike. */
  lemma ScanFindsIffFires(m: Market, disc: real, scale: Scale, options: seq<OptionQuote>)
    ensures ScanAll(m, disc, scale, options) != [] <==> exists k, s :: FiresAt(m, disc, scale, options, k, s)
  {
    var opps := ScanAll(m, disc, scale, options);
    if opps != [] {
      RecordedFired(m, disc, scale, options, opps[0]);
    }
  }

  /** A strike at which a rule fires is one of the scanned keys. */
  lemma FiringStrikesScanned(m: Market, disc: real, scale: Scale, options: seq<OptionQuote>)
    ensures forall k, s :: Fires(m, disc, scale, AtStrike(options, k), s) ==> k in OrderedKeys(KeysOf(options, QuoteStrike))
  {
    var strikes := KeysOf(options, QuoteStrike);
    forall k, s | Fires(m, disc, scale, AtStrike(options, k), s)
      ensures k in OrderedKeys(strikes)
    {
      var call := FirstCall(AtStrike(options, k));
      var i :| 0 <= i < |options| && options[i] == call;
      assert strikes[i] == k;
    }
  }

  /** One step of the per-strike selection: an opportunity replaces the one
      held for its strike only when none is held yet or it is strictly more
      profitable. */
  function Keep(best: map<real, Opportunity>, o: Opportunity): map<real, Opportunity>
  {
    if o.strike !in best || best[o.strike].profit < o.profit then best[o.strike := o] else best
  }

  /** The selection after visiting opps in order. */
  function BestOf(opps: seq<Opportunity>): map<real, Opportunity>
  {
    if opps == [] then map[] else Keep(BestOf(opps[..|opps| - 1]), opps[|opps| - 1])
  }

  /** Exactly the strikes that occur are held, each by an opportunity at that
      strike taken from the input. */
  lemma {:induction false} BestOfHolds(opps: seq<Opportunity>)
    ensures forall k :: k in BestOf(opps) <==> exists i :: 0 <= i < |opps| && opps[i].strike == k
    ensures forall k :: k in BestOf(opps) ==> BestOf(opps)[k].strike == k && BestOf(opps)[k] in opps
  {
    if opps != [] {
      var s := opps[..|opps| - 1];
      BestOfHolds(s);
      assert forall i :: 0 <= i < |s| ==> s[i] == opps[i];
    }
  }

  /** The held opportunity is at least as profitable as any other at its strike. */
  lemma {:induction false} BestOfMaximal(opps: seq<Opportunity>)
    ensures forall k, i :: k in BestOf(opps) && 0 <= i < |opps| && opps[i].strike == k ==>
              opps[i].profit <= BestOf(opps)[k].profit
  {
    if opps != [] {
      var s := opps[..|opps| - 1];
      BestOfMaximal(s);
      BestOfHolds(s);
      assert forall i :: 0 <= i < |s| ==> s[i] == opps[i];
    }
  }

  /** Among equally profitable opportunities at a strike, the earliest is held. */
  lemma {:induction false} BestOfEarliest(opps: seq<Opportunity>)
    ensures forall k :: k in BestOf(opps) ==>
              exists i :: 0 <= i < |opps| && opps[i] == BestOf(opps)[k]
                          && forall j :: 0 <= j < i && opps[j].strike == k ==> opps[j].profit < BestOf(opps)[k].profit
  {
    if opps != [] {
      var n := |opps| - 1;
      var s := opps[..n];
      var o := opps[n];
      BestOfEarliest(s);
      BestOfMaximal(s);
      BestOfHolds(s);
      assert forall i :: 0 <= i < |s| ==> s[i] == opps[i];
      var before := BestOf(s);
      forall k | k in BestOf(opps)
        ensures exists i :: 0 <= i < |opps| && opps[i] == BestOf(opps)[k]
                  && forall j :: 0 <= j < i && opps[j].strike == k ==> opps[j].profit < BestOf(opps)[k].profit
      {
        if k == o.strike && (k !in before || before[k].profit < o.profit) {
          assert opps[n] == BestOf(opps)[k];
        } else {
          var i :| 0 <= i < |s| && s[i] == before[k]
                   && forall j :: 0 <= j < i && s[j].strike == k ==> s[j].profit < before[k].profit;
          assert opps[i] == BestOf(opps)[k];
        }
      }
    }
  }

  /**
    The per-strike selection loop over the opportunities in order. Each
    strike that occurs maps to an opportunity of maximal profit at that
    strike, the earliest one among equals.
  */
  method BestByStrike(opps: seq<Opportunity>) returns (best: map<real, Opportunity>)
    ensures forall k :: k in best <==> exists i :: 0 <= i < |opps| && opps[i].strike == k
    ensures forall k :: k in best ==> best[k].strike == k && best[k] in opps
    ensures forall k, i :: k in best && 0 <= i < |opps| && opps[i].strike == k ==>
              opps[i].profit <= best[k].profit
    ensures forall k :: k in best ==>
              exists i :: 0 <= i < |opps| && opps[i] == best[k]
                          && forall j :: 0 <= j < i && opps[j].strike == k ==> opps[j].profit < best[k].profit
  {
    best := map[];
    var n := 0;
    while n < |opps|
      invariant 0 <= n <= |opps|
      invariant best == BestOf(opps[..n])
    {
      assert opps[..n + 1][..n] == opps[..n];
      var o := opps[n];
      if o.strike !in best || best[o.strike].profit < o.profit {
        best := best[o.strike := o];
      }
      n := n + 1;
    }
    assert opps[..|opps|] == opps;
    BestOfHolds(opps);
    BestOfMaximal(opps);
    BestOfEarliest(opps);
  }

  /** The held opportunities with positive profit, in the given key order. */
  function Listing(best: map<real, Opportunity>, keys: seq<real>): (entries: seq<Opportunity>)
    ensures forall e :: e in entries ==> e.profit > 0.0
    ensures forall e :: e in entries <==> exists k :: k in keys && k in best && best[k] == e && e.profit > 0.0
  {
    if keys == [] then []
    else
      var k := keys[0];
      var rest := Listing(best, keys[1..]);
      if k in best && best[k].profit > 0.0 then [best[k]] + rest else rest
  }

  predicate IncreasingStrikes(entries: seq<Opportunity>)
  {
    forall i, j :: 0 <= i < j < |entries| ==> entries[i].strike < entries[j].strike
  }

  /** Listed in increasing key order, the entries come in increasing strike
      order. */
  lemma {:induction false} ListingOrdered(best: map<real, Opportunity>, keys: seq<real>)
    requires StrictlyIncreasing(keys)
    requires forall k :: k in best ==> best[k].strike == k
    ensures IncreasingStrikes(Listing(best, keys))
  {
    if keys != [] {
      var k := keys[0];
      ListingOrdered(best, keys[1..]);
      if k in best && best[k].profit > 0.0 {
        ListingAbove(best, keys[1..], k);
        PrependSmaller(best[k], Listing(best, keys[1..]));
      }
    }
  }

  /** Keys all above k list entries with strikes all above k. */
  lemma ListingAbove(best: map<real, Opportunity>, keys: seq<real>, k: real)
    requires forall i :: 0 <= i < |keys| ==> k < keys[i]
    requires forall k :: k in best ==> best[k].strike == k
    ensures forall e :: e in Listing(best, keys) ==> k < e.strike
  {
  }

  /** An entry below all of an ordered list keeps it ordered in front. */
  lemma PrependSmaller(x: Opportunity, rest: seq<Opportunity>)
    requires IncreasingStrikes(rest)
    requires forall e :: e in rest ==> x.strike < e.strike
    ensures IncreasingStrikes([x] + rest)
  {
    assert forall j :: 0 <= j < |rest| ==> rest[j] in rest;
  }

  /** What the report shows. */
  datatype Outcome =
    | NoOpportunities               // nothing was recorded at all
    | NoneAfterCosts                // recorded, but no strike's best is profitable
    | Listed(entries: seq<Opportunity>)

  /**
    The report: with nothing recorded, the first message; otherwise the best
    opportunity of each strike, in increasing strike order, listed when its
    profit is positive, and the second message when none is. Every strike
    with a profitable opportunity is listed, with one of maximal profit.
  */
  method Display(opps: seq<Opportunity>) returns (out: Outcome)
    ensures out == NoOpportunities <==> opps == []
    ensures out.Listed? ==> out.entries != []
    ensures out.Listed? ==> forall e :: e in out.entries ==> e.profit > 0.0 && e in opps
    ensures out.Listed? ==> forall i, j :: 0 <= i < j < |out.entries| ==> out.entries[i].strike < out.entries[j].strike
    ensures out.Listed? ==> forall e, o :: e in out.entries && o in opps && o.strike == e.strike ==> o.profit <= e.profit
    ensures out.Listed? ==> forall o :: o in opps && o.profit > 0.0 ==> o.strike in KeysOf(out.entries, OpportunityStrike)
    ensures out == NoneAfterCosts ==> forall o :: o in opps ==> o.profit <= 0.0
  {
    if opps == [] {
      return NoOpportunities;
    }
    var best := BestByStrike(opps);
    var keys := OrderedKeys(KeysOf(opps, OpportunityStrike));
    var entries := Listing(best, keys);
    ListingOrdered(best, keys);
    forall o | o in opps && o.profit > 0.0
      ensures o.strike in KeysOf(entries, OpportunityStrike)
    {
      var i :| 0 <= i < |opps| && opps[i] == o;
      assert KeysOf(opps, OpportunityStrike)[i] == o.strike;
      assert o.strike in keys;
      assert best[o.strike] in entries;
      var j :| 0 <= j < |entries| && entries[j] == best[o.strike];
      assert KeysOf(entries, OpportunityStrike)[j] == o.strike;
    }
    forall e, o | e in entries && o in opps && o.strike == e.strike
      ensures o.profit <= e.profit
    {
      var k :| k in keys && k in best && best[k] == e && e.profit > 0.0;
      var i :| 0 <= i < |opps| && opps[i] == o;
    }
    if entries == [] {
      return NoneAfterCosts;
    }
    return Listed(entries);
  }

  /**
    The whole scanner on parsed records, reading strike fields at the given
    scale (WrittenStrikeScale in the program as written): retain, scan,
    report. Every scanned
    opportunity is profitable, so the second message is never shown; with
    neither the index nor the future quoted nothing is found. The first
    message is shown exactly when no rule fires at any strike of the
    retained options, and otherwise every strike at which one fires is
    listed.
  */
  method Scan(m: Market, disc: real, scale: Scale, parsed: seq<OptionQuote>) returns (out: Outcome)
    ensures !out.NoneAfterCosts?
    ensures !m.hasIndex && !m.hasFuture ==> out == NoOpportunities
    ensures out.Listed? ==> forall e :: e in out.entries ==> e in ScanAll(m, disc, scale, RetainOptions(parsed))
    ensures out == NoOpportunities <==> forall k, s :: !FiresAt(m, disc, scale, RetainOptions(parsed), k, s)
    ensures out.Listed? ==> forall k, s :: FiresAt(m, disc, scale, RetainOptions(parsed), k, s) ==>
              exists e :: e in out.entries && e.strike == k / scale
  {
    var opps := ScanAll(m, disc, scale, RetainOptions(parsed));
    out := Display(opps);
    ScanFindsIffFires(m, disc, scale, RetainOptions(parsed));
    ReportShowsFiring(m, disc, scale, RetainOptions(parsed), opps, out);
  }

  /** The report of the scanned opportunities is empty exactly when no rule
      fires anywhere, and otherwise lists every strike at which one fires. */
  lemma ReportShowsFiring(m: Market, disc: real, scale: Scale, options: seq<OptionQuote>, opps: seq<Opportunity>, out: Outcome)
    requires forall k, s :: FiresAt(m, disc, scale, options, k, s) ==>
               exists o :: o in opps && o.strategy == s && o.strike == k / scale
    requires opps != [] ==> exists k, s :: FiresAt(m, disc, scale, options, k, s)
    requires forall o :: o in opps ==> o.profit > 0.0
    requires out == NoOpportunities <==> opps == []
    requires out.Listed? ==> forall o :: o in opps && o.profit > 0.0 ==> o.strike in KeysOf(out.entries, OpportunityStrike)
    ensures out == NoOpportunities <==> forall k, s :: !FiresAt(m, disc, scale, options, k, s)
    ensures out.Listed? ==> forall k, s :: FiresAt(m, disc, scale, options, k, s) ==>
              exists e :: e in out.entries && e.strike == k / scale
  {
    if out.Listed? {
      forall k, s | FiresAt(m, disc, scale, options, k, s)
        ensures exists e :: e in out.entries && e.strike == k / scale
      {
        var o :| o in opps && o.strategy == s && o.strike == k / scale;
        var j :| 0 <= j < |out.entries| && KeysOf(out.entries, OpportunityStrike)[j] == o.strike;
        assert out.entries[j] in out.entries;
      }
    }
  }
}
