/**
 The torrent code's own scanner over bencoded bytes. It reads lengths into 32 bits and adds them as 64-bit
 offsets, so a length of 2^31 or more can take it backwards; it may then never end. `fuel` counts its steps.
 */
module BencodeScan {
  import opened Bytes
  import opened Bencode
  import opened BencodeRoundTrip
  import opened BencodeSkip

  // ---------------------------------------------------------------- scanning

  datatype Scan = Unfinished | Refused | End(pos: nat)

  /** Digits up to a colon stand at `pos`. */
  predicate HasLength(data: Text, pos: nat)
  {
    pos < |data| && var colon := Find(data, COLON, pos); colon < |data| && AllDigits(data[pos..colon])
  }

  function TextLength(data: Text, pos: nat): nat
    requires HasLength(data, pos)
  {
    Number(data[pos..Find(data, COLON, pos)])
  }

  /** Over a text: the length wrapped to 32 bits, the sum to 64. */
  function TextStep(data: Text, pos: nat): (r: Scan)
    requires pos < |data|
    ensures r.End? ==> r.pos <= |data|
  {
    if !HasLength(data, pos) then Refused
    else
      var end := (Find(data, COLON, pos) + 1 + ToInt32(TextLength(data, pos))) % TWO_64;
      if end <= |data| then End(end) else Refused
  }

  /** `btSkipBencodeValue` from `pos`, as far as `fuel` steps deep take it. */
  function ScanValue(data: Text, pos: nat, fuel: nat): (r: Scan)
    ensures r.End? ==> r.pos <= |data|
    decreases fuel
  {
    if fuel == 0 then Unfinished
    else if pos >= |data| then Refused
    else if data[pos] == CHAR_i then
      var e := Find(data, CHAR_e, pos + 1);
      if e == |data| then Refused else End(e + 1)
    else if IsDigit(data[pos]) then TextStep(data, pos)
    else if data[pos] == CHAR_l then ScanBody(data, pos + 1, false, fuel - 1)
    else if data[pos] == CHAR_d then ScanBody(data, pos + 1, true, fuel - 1)
    else Refused
  }

  function ScanBody(data: Text, pos: nat, dict: bool, fuel: nat): (r: Scan)
    ensures r.End? ==> r.pos <= |data|
    decreases fuel
  {
    if fuel == 0 then Unfinished
    else if pos >= |data| then Refused
    else if data[pos] == CHAR_e then End(pos + 1)
    else
      var key := if dict then ScanValue(data, pos, fuel - 1) else End(pos);
      if !key.End? then key
      else
        var value := ScanValue(data, key.pos, fuel - 1);
        if !value.End? then value else ScanBody(data, value.pos, dict, fuel - 1)
  }

  /** Fuel only decides whether the end is seen, never what it is. */
  lemma {:induction false} MoreFuel(data: Text, pos: nat, fuel: nat, more: nat)
    requires fuel <= more && ScanValue(data, pos, fuel) != Unfinished
    ensures ScanValue(data, pos, more) == ScanValue(data, pos, fuel)
    decreases fuel
  {
    hide Find, TextStep;
    if pos < |data| && (data[pos] == CHAR_l || data[pos] == CHAR_d) {
      MoreBodyFuel(data, pos + 1, data[pos] == CHAR_d, fuel - 1, more - 1);
    }
  }

  lemma {:induction false} MoreBodyFuel(data: Text, pos: nat, dict: bool, fuel: nat, more: nat)
    requires fuel <= more && ScanBody(data, pos, dict, fuel) != Unfinished
    ensures ScanBody(data, pos, dict, more) == ScanBody(data, pos, dict, fuel)
    decreases fuel
  {
    hide ScanValue;
    if pos < |data| && data[pos] != CHAR_e {
      var key := if dict then ScanValue(data, pos, fuel - 1) else End(pos);
      if dict { MoreFuel(data, pos, fuel - 1, more - 1); }
      if key.End? {
        var value := ScanValue(data, key.pos, fuel - 1);
        MoreFuel(data, key.pos, fuel - 1, more - 1);
        if value.End? { MoreBodyFuel(data, value.pos, dict, fuel - 1, more - 1); }
      }
    }
  }

  // ---------------------------------------------------------------- against the reference

  function Answer(r: Option<nat>): Scan { if r.Some? then End(r.value) else Refused }

  lemma SumWraps(sum: int)
    requires -TWO_31 <= sum < TWO_32
    ensures sum % TWO_64 == if sum >= 0 then sum else sum + TWO_64
  {
  }

  lemma SkipText(data: Text, pos: nat)
    requires pos < |data| && IsDigit(data[pos])
    ensures !HasLength(data, pos) ==> SkipValue(data, pos) == None
    ensures HasLength(data, pos) ==>
      var end := Find(data, COLON, pos) + 1 + TextLength(data, pos);
      SkipValue(data, pos) == if end <= |data| then Some(end) else None
  {
    hide Find, Number;
  }

  /**
   A text is stepped over as by the reference, and forwards, if its length is below 2^31. A step past a greater
   length is never the reference's, and goes forwards exactly if the wrapped length exceeds minus the bytes read.
   */
  lemma TextStepExactly(data: Text, pos: nat)
    requires HasLength(data, pos) && IsDigit(data[pos]) && |data| < TWO_31
    ensures TextLength(data, pos) < TWO_31 ==> TextStep(data, pos) == Answer(SkipValue(data, pos))
    ensures TextStep(data, pos).End? ==>
      && (TextStep(data, pos) == Answer(SkipValue(data, pos)) <==> TextLength(data, pos) < TWO_31)
      && (TextStep(data, pos).pos > pos <==>
            ToInt32(TextLength(data, pos)) + (Find(data, COLON, pos) + 1 - pos) > 0)
  {
    hide Find, TextLength, ToInt32, SkipValue;
    var n := TextLength(data, pos);
    Int32Kept(n);
    SumWraps(Find(data, COLON, pos) + 1 + ToInt32(n));
    SkipText(data, pos);
  }

  /** Steps that are enough from `pos` on. */
  predicate Enough(data: Text, pos: nat, fuel: nat) { fuel + 2 * pos > 2 * |data| && fuel > 0 }

  /** A text that only the wrapped length steps over. */
  predicate Wrapped(data: Text, pos: nat)
  {
    HasLength(data, pos) && TextLength(data, pos) >= TWO_31 && TextStep(data, pos).End?
  }

  /** The reference, on its way from `pos`, comes to such a text. */
  predicate Derails(data: Text, pos: nat)
    decreases |data| - pos, 0
  {
    pos < |data| &&
    if IsDigit(data[pos]) then Wrapped(data, pos)
    else (data[pos] == CHAR_l || data[pos] == CHAR_d) && DerailsBody(data, pos + 1, data[pos] == CHAR_d)
  }

  predicate DerailsBody(data: Text, pos: nat, dict: bool)
    decreases |data| - pos, 1
  {
    pos < |data| && data[pos] != CHAR_e &&
    var key := if dict then SkipValue(data, pos) else Some(pos);
    (dict && Derails(data, pos)) ||
    (key.Some? && (Derails(data, key.value) ||
      (SkipValue(data, key.value).Some? && DerailsBody(data, SkipValue(data, key.value).value, dict))))
  }

  lemma TextMeets(data: Text, pos: nat)
    requires pos < |data| && IsDigit(data[pos]) && |data| < TWO_31
    ensures Wrapped(data, pos) ==> SkipValue(data, pos) == None && TextStep(data, pos) != Refused
    ensures !Wrapped(data, pos) ==> TextStep(data, pos) == Answer(SkipValue(data, pos))
  {
    hide Find, TextLength, ToInt32, SkipValue;
    SkipText(data, pos);
    if HasLength(data, pos) { TextStepExactly(data, pos); }
  }

  /** Unless it derails, the scan ends, with the reference's answer. */
  lemma {:induction false} ScanFollows(data: Text, pos: nat, fuel: nat)
    requires |data| < TWO_31 && Enough(data, pos, fuel) && !Derails(data, pos)
    ensures ScanValue(data, pos, fuel) == Answer(SkipValue(data, pos))
    decreases fuel
  {
    hide SkipBody, ScanBody, Find, TextStep, DerailsBody, Wrapped;
    if pos < |data| {
      if IsDigit(data[pos]) {
        TextMeets(data, pos);
      } else if data[pos] == CHAR_l || data[pos] == CHAR_d {
        BodyFollows(data, pos + 1, data[pos] == CHAR_d, fuel - 1);
      }
    }
  }

  lemma {:induction false} BodyFollows(data: Text, pos: nat, dict: bool, fuel: nat)
    requires |data| < TWO_31 && fuel > 0 && (pos <= |data| ==> fuel + 2 * pos > 2 * |data| + 1) && !DerailsBody(data, pos, dict)
    ensures ScanBody(data, pos, dict, fuel) == Answer(SkipBody(data, pos, dict))
    decreases fuel
  {
    hide SkipValue, ScanValue, Derails;
    if pos < |data| && data[pos] != CHAR_e {
      if dict { ScanFollows(data, pos, fuel - 1); }
      var key := if dict then SkipValue(data, pos) else Some(pos);
      if key.Some? {
        ScanFollows(data, key.value, fuel - 1);
        var value := SkipValue(data, key.value);
        if value.Some? { BodyFollows(data, value.value, dict, fuel - 1); }
      }
    }
  }

  /** The reference finds an end only where nothing derails. */
  lemma {:induction false} EndMeansOnTrack(data: Text, pos: nat)
    requires |data| < TWO_31 && SkipValue(data, pos).Some?
    ensures !Derails(data, pos)
    decreases |data| - pos, 0
  {
    hide SkipBody, DerailsBody, Wrapped, Find, Number;
    if IsDigit(data[pos]) {
      TextMeets(data, pos);
    } else if data[pos] == CHAR_l || data[pos] == CHAR_d {
      BodyOnTrack(data, pos + 1, data[pos] == CHAR_d);
    }
  }

  lemma {:induction false} BodyOnTrack(data: Text, pos: nat, dict: bool)
    requires |data| < TWO_31 && SkipBody(data, pos, dict).Some?
    ensures !DerailsBody(data, pos, dict)
    decreases |data| - pos, 1
  {
    hide SkipValue, Derails;
    if data[pos] != CHAR_e {
      if dict { EndMeansOnTrack(data, pos); }
      var key := if dict then SkipValue(data, pos) else Some(pos);
      EndMeansOnTrack(data, key.value);
      BodyOnTrack(data, SkipValue(data, key.value).value, dict);
    }
  }

  /** Where the reference finds an end, so does the scan. */
  lemma ScanMeetsSkip(data: Text, pos: nat, fuel: nat)
    requires |data| < TWO_31 && Enough(data, pos, fuel) && SkipValue(data, pos).Some?
    ensures ScanValue(data, pos, fuel) == End(SkipValue(data, pos).value)
  {
    hide SkipValue, ScanValue, Derails;
    EndMeansOnTrack(data, pos);
    ScanFollows(data, pos, fuel);
  }

  // ---------------------------------------------------------------- when a scan ends

  /** A call that the scan can be in the middle of. */
  datatype Call = Value(pos: nat) | Body(pos: nat, dict: bool)

  function Answered(data: Text, call: Call, fuel: nat): Scan
  {
    match call case Value(pos) => ScanValue(data, pos, fuel) case Body(pos, dict) => ScanBody(data, pos, dict, fuel)
  }

  /** The call ends with this fuel and with no less. */
  predicate Needs(data: Text, call: Call, fuel: nat)
  {
    fuel > 0 && Answered(data, call, fuel) != Unfinished && Answered(data, call, fuel - 1) == Unfinished
  }

  lemma MoreCallFuel(data: Text, call: Call, fuel: nat, more: nat)
    requires fuel <= more && Answered(data, call, fuel) != Unfinished
    ensures Answered(data, call, more) == Answered(data, call, fuel)
  {
    hide ScanValue, ScanBody;
    match call
    case Value(pos) => MoreFuel(data, pos, fuel, more);
    case Body(pos, dict) => MoreBodyFuel(data, pos, dict, fuel, more);
  }

  /** The fuel a call needs, if it ends at all. */
  lemma {:induction false} LeastFuel(data: Text, call: Call, fuel: nat) returns (least: nat)
    requires Answered(data, call, fuel) != Unfinished
    ensures least <= fuel && Needs(data, call, least)
    decreases fuel
  {
    hide ScanValue, ScanBody;
    NoFuel(data, call);
    if Answered(data, call, fuel - 1) == Unfinished { least := fuel; } else { least := LeastFuel(data, call, fuel - 1); }
  }

  lemma NoFuel(data: Text, call: Call)
    ensures Answered(data, call, 0) == Unfinished
  {
  }

  predicate InData(data: Text, call: Call) { call.pos <= |data| }

  /** A call that needs more than one step makes one that needs just one step fewer. */
  lemma InnerCall(data: Text, call: Call, fuel: nat) returns (inner: Call)
    requires InData(data, call) && Needs(data, call, fuel) && fuel > 1
    ensures InData(data, inner) && Needs(data, inner, fuel - 1)
  {
    hide Find, TextStep;
    match call
    case Value(pos) => inner := Body(pos + 1, data[pos] == CHAR_d);
    case Body(pos, dict) =>
      var first := if dict then ScanValue(data, pos, fuel - 2) else End(pos);
      if dict && first == Unfinished {
        inner := Value(pos);
      } else {
        hide ScanValue;
        if dict { MoreFuel(data, pos, fuel - 2, fuel - 1); }
        var value := ScanValue(data, first.pos, fuel - 2);
        if value == Unfinished {
          inner := Value(first.pos);
        } else {
          MoreFuel(data, first.pos, fuel - 2, fuel - 1);
          inner := Body(value.pos, dict);
        }
      }
  }

  lemma NeedsOnce(data: Text, call: Call, fuel: nat, other: nat)
    requires Needs(data, call, fuel) && Needs(data, call, other)
    ensures fuel == other
  {
    hide Answered;
    if fuel < other { MoreCallFuel(data, call, fuel, other - 1); }
    if other < fuel { MoreCallFuel(data, call, other, fuel - 1); }
  }

  ghost predicate NeedsUpTo(data: Text, call: Call, most: nat)
  {
    InData(data, call) && exists fuel :: 0 <= fuel <= most && Needs(data, call, fuel)
  }

  /** The calls a call is made of, one for each number of steps: all different. */
  lemma {:induction false} Chain(data: Text, call: Call, fuel: nat) returns (calls: set<Call>)
    requires InData(data, call) && Needs(data, call, fuel)
    ensures |calls| == fuel && forall c :: c in calls ==> NeedsUpTo(data, c, fuel)
    decreases fuel
  {
    hide Needs, InData;
    assert fuel > 0 by { NeedsSome(data, call, fuel); }
    if fuel == 1 {
      calls := {call};
    } else {
      var inner := InnerCall(data, call, fuel);
      var rest := Chain(data, inner, fuel - 1);
      if call in rest {
        var less :| 0 <= less <= fuel - 1 && Needs(data, call, less);
        NeedsOnce(data, call, less, fuel);
      }
      calls := rest + {call};
      forall c | c in rest ensures NeedsUpTo(data, c, fuel) {
        assert NeedsUpTo(data, c, fuel - 1);
        var less :| 0 <= less <= fuel - 1 && Needs(data, c, less);
        assert less <= fuel;
      }
    }
  }

  lemma NeedsSome(data: Text, call: Call, fuel: nat)
    requires Needs(data, call, fuel)
    ensures fuel > 0
  {
  }

  /** All calls at positions up to `n`. */
  ghost function CallsUpTo(n: nat): set<Call>
  {
    var here := {Value(n), Body(n, false), Body(n, true)};
    if n == 0 then here else CallsUpTo(n - 1) + here
  }

  lemma {:induction false} CountCalls(n: nat)
    ensures |CallsUpTo(n)| == 3 * (n + 1) && forall c :: c in CallsUpTo(n) <==> c.pos <= n
  {
    var here := {Value(n), Body(n, false), Body(n, true)};
    assert forall c: Call :: c.pos == n <==> c in here;
    assert |here| == 3;
    if n > 0 {
      CountCalls(n - 1);
      assert CallsUpTo(n - 1) !! here;
    }
  }

  lemma {:induction false} FewerInside(a: set<Call>, b: set<Call>)
    requires a <= b
    ensures |a| <= |b|
    decreases a
  {
    if a != {} {
      var c :| c in a;
      FewerInside(a - {c}, b - {c});
    }
  }

  /** As many steps as any scan that ends can take. */
  function Limit(data: Text): nat { 3 * (|data| + 1) }

  /** A scan ends if and only if it does within that limit. */
  lemma ScanEndsExactly(data: Text, pos: nat)
    requires pos <= |data|
    ensures (exists fuel: nat :: ScanValue(data, pos, fuel) != Unfinished) <==> ScanValue(data, pos, Limit(data)) != Unfinished
  {
    hide ScanValue;
    forall fuel: nat | ScanValue(data, pos, fuel) != Unfinished ensures ScanValue(data, pos, Limit(data)) != Unfinished {
      WithinLimit(data, pos, fuel);
    }
  }

  lemma WithinLimit(data: Text, pos: nat, fuel: nat)
    requires pos <= |data| && ScanValue(data, pos, fuel) != Unfinished
    ensures ScanValue(data, pos, Limit(data)) == ScanValue(data, pos, fuel)
  {
    hide ScanValue, Needs;
    var call := Value(pos);
    assert Answered(data, call, fuel) == ScanValue(data, pos, fuel);
    var least := LeastFuel(data, call, fuel);
    var calls := Chain(data, call, least);
    CountCalls(|data|);
    FewerInside(calls, CallsUpTo(|data|));
    assert ScanValue(data, pos, least) != Unfinished by { NeedsAnswers(data, call, least); }
    MoreFuel(data, pos, least, fuel);
    MoreFuel(data, pos, least, Limit(data));
  }

  lemma NeedsAnswers(data: Text, call: Call, fuel: nat)
    requires Needs(data, call, fuel)
    ensures Answered(data, call, fuel) != Unfinished
  {
  }

  /** Wherever the decoder accepts a value, the scan stops at the same byte. */
  lemma ScanAgrees(data: Text, pos: nat, used: nat, limit: nat, fuel: nat)
    requires ParseValue(data, pos, used, limit).Got? && |data| < TWO_31 && Enough(data, pos, fuel)
    ensures ScanValue(data, pos, fuel) == End(ParseValue(data, pos, used, limit).pos)
  {
    hide ParseValue, SkipValue, ScanValue;
    ParsersAgree(data, pos, used, limit);
    ScanMeetsSkip(data, pos, fuel);
  }

  // ---------------------------------------------------------------- a scan that never ends

  const ENDLESS: Text := [CHAR_l] + [52, 50, 57, 52, 57, 54, 55, 50, 56, 53] + [COLON, CHAR_e]

  lemma {:induction false} EndlessDigits()
    ensures Digits(4294967285) == [52, 50, 57, 52, 57, 54, 55, 50, 56, 53]
  {
    assert Digits(42) == [52, 50];
    assert Digits(4294) == [52, 50, 57, 52];
    assert Digits(429496) == [52, 50, 57, 52, 57, 54];
    assert Digits(42949672) == [52, 50, 57, 52, 57, 54, 55, 50];
  }

  lemma EndlessStep()
    ensures TextStep(ENDLESS, 1) == End(1) && IsDigit(ENDLESS[1])
  {
    hide Number, Digits, Find;
    EndlessDigits();
    NumberOfDigits(4294967285);
    FindFirst(ENDLESS, COLON, 1, 11);
    assert ENDLESS[1..11] == Digits(4294967285);
  }

  /** The list "l4294967285:e": its text has the wrapped length -11 and leads back to itself, whatever the fuel. */
  lemma EndlessScan(fuel: nat)
    ensures ScanValue(ENDLESS, 0, fuel) == Unfinished && SkipValue(ENDLESS, 0) == None
  {
    hide TextStep, Find;
    if fuel > 0 { EndlessBody(fuel - 1); }
    EndlessSkip();
  }

  lemma {:induction false} EndlessBody(fuel: nat)
    ensures ScanBody(ENDLESS, 1, false, fuel) == Unfinished
  {
    hide TextStep;
    EndlessStep();
    if fuel > 1 {
      assert ENDLESS[1] == 52;
      EndlessBody(fuel - 1);
    }
  }

  lemma EndlessSkip()
    ensures SkipBody(ENDLESS, 1, false) == None
  {
    hide Number, Digits, Find;
    EndlessDigits();
    NumberOfDigits(4294967285);
    FindFirst(ENDLESS, COLON, 1, 11);
    assert ENDLESS[1..11] == Digits(4294967285);
    assert SkipValue(ENDLESS, 1) == None;
  }

  // ---------------------------------------------------------------- the scanner's loops

  method FindByte(data: Text, c: byte, from: nat) returns (i: nat)
    requires from <= |data|
    ensures i == Find(data, c, from)
  {
    i := from;
    while i < |data| && data[i] != c
      invariant from <= i <= |data| && Find(data, c, from) == Find(data, c, i)
    {
      i := i + 1;
    }
  }

  method SkipBencodeValue(data: Text, start: nat, fuel: nat) returns (r: Scan)
    ensures r == ScanValue(data, start, fuel)
    decreases fuel
  {
    hide ScanBody, Find;
    if fuel == 0 {
      return Unfinished;
    }
    if start >= |data| {
      return Refused;
    }
    var t := data[start];
    if t == CHAR_i {
      var e := FindByte(data, CHAR_e, start + 1);
      return if e == |data| then Refused else End(e + 1);
    }
    if IsDigit(t) {
      var colon := FindByte(data, COLON, start);
      if colon == |data| {
        return Refused;
      }
      var ok, len := ReadNumber(data[start..colon]);
      if !ok {
        return Refused;
      }
      var end := (colon + 1 + len) % TWO_64;
      return if end <= |data| then End(end) else Refused;
    }
    if t == CHAR_l || t == CHAR_d {
      r := SkipMembers(data, start + 1, t == CHAR_d, fuel - 1);
      return;
    }
    return Refused;
  }

  lemma WrapStep(n: nat, d: nat)
    ensures ToInt32(ToInt32(n) * 10 + d) == ToInt32(n * 10 + d)
  {
    var k := (n + TWO_31) / TWO_32;
    var w := ToInt32(n);
    assert w == n - k * TWO_32;
    RestShift(w * 10 + d + TWO_31, 10 * k);
    assert n * 10 + d + TWO_31 == (w * 10 + d + TWO_31) + (10 * k) * TWO_32;
  }

  /** The number in 32 bits, wrapped digit by digit. */
  method ReadNumber(digits: Text) returns (ok: bool, len: int)
    ensures ok == AllDigits(digits) && (ok ==> len == ToInt32(Number(digits)))
  {
    hide ToInt32;
    len := 0;
    assert ToInt32(0) == 0 by { ZeroFits(); }
    for i := 0 to |digits|
      invariant AllDigits(digits[..i]) && len == ToInt32(Number(digits[..i]))
    {
      if !IsDigit(digits[i]) {
        return false, len;
      }
      assert digits[..i + 1][..i] == digits[..i];
      WrapStep(Number(digits[..i]), (digits[i] - CHAR_0) as int);
      len := ToInt32(len * 10 + (digits[i] - CHAR_0) as int);
    }
    assert digits[..|digits|] == digits;
    return true, len;
  }

  lemma ZeroFits()
    ensures ToInt32(0) == 0
  {
  }

  method SkipMembers(data: Text, start: nat, dict: bool, fuel: nat) returns (r: Scan)
    ensures r == ScanBody(data, start, dict, fuel)
    decreases fuel
  {
    hide ScanValue;
    var pos: nat, left: nat := start, fuel;
    while left > 0 && pos < |data| && data[pos] != CHAR_e
      invariant left <= fuel && ScanBody(data, start, dict, fuel) == ScanBody(data, pos, dict, left)
      decreases left
    {
      left := left - 1;
      if dict {
        r := SkipBencodeValue(data, pos, left);
        if !r.End? { return; }
        pos := r.pos;
      }
      r := SkipBencodeValue(data, pos, left);
      if !r.End? { return; }
      pos := r.pos;
    }
    if left == 0 {
      return Unfinished;
    }
    return if pos >= |data| then Refused else End(pos + 1);
  }
}
