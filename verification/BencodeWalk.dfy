/**
 The torrent code's scanner as a path of single steps over the bytes: at each byte one thing is wanted, and
 what is wanted after it waits on a stack. The path says where a scan leads that a wrapped length took off the
 reference's way.
 */
module BencodeWalk {
  import opened Bytes
  import opened Bencode
  import opened BencodeSkip
  import opened BencodeScan

  datatype Want = AValue | TheRest(dict: bool)

  /** At `pos`, with the next thing wanted first; nothing wanted is the end of the path. */
  datatype Point = Stuck | At(pos: nat, wants: seq<Want>)

  function Move(data: Text, p: Point): Point
  {
    if p.Stuck? || p.wants == [] then p
    else if p.pos >= |data| then Stuck
    else
      var c, later := data[p.pos], p.wants[1..];
      match p.wants[0]
      case TheRest(dict) =>
        if c == CHAR_e then At(p.pos + 1, later)
        else At(p.pos, (if dict then [AValue, AValue] else [AValue]) + p.wants)
      case AValue =>
        if c == CHAR_i then
          var e := Find(data, CHAR_e, p.pos + 1);
          if e == |data| then Stuck else At(e + 1, later)
        else if IsDigit(c) then
          var r := TextStep(data, p.pos);
          if r.End? then At(r.pos, later) else Stuck
        else if c == CHAR_l || c == CHAR_d then At(p.pos + 1, [TheRest(c == CHAR_d)] + later)
        else Stuck
  }

  function Walk(data: Text, p: Point, steps: nat): Point
    decreases steps
  {
    if steps == 0 then p else Walk(data, Move(data, p), steps - 1)
  }

  /** From `pos` the path comes to a byte that is not what is wanted. */
  ghost predicate Strands(data: Text, pos: nat)
  {
    exists steps: nat :: Walk(data, At(pos, [AValue]), steps) == Stuck
  }

  predicate Running(p: Point) { p.At? && p.wants != [] }

  lemma {:induction false} WalkOn(data: Text, p: Point, a: nat, b: nat)
    ensures Walk(data, p, a + b) == Walk(data, Walk(data, p, a), b)
    decreases a
  {
    hide Move;
    if a > 0 { WalkOn(data, Move(data, p), a - 1, b); }
  }

  lemma {:induction false} Stays(data: Text, p: Point, steps: nat)
    requires !Running(p)
    ensures Walk(data, p, steps) == p
  {
    if steps > 0 { Stays(data, p, steps - 1); }
  }

  /** Where the path goes after an answer, with `later` still wanted. */
  function Onwards(answer: Scan, later: seq<Want>): Point
    requires answer != Unfinished
  {
    if answer.End? then At(answer.pos, later) else Stuck
  }

  /** The path comes to where the scan's answer says. */
  lemma {:induction false} ValuePath(data: Text, pos: nat, fuel: nat, later: seq<Want>) returns (steps: nat)
    requires ScanValue(data, pos, fuel) != Unfinished
    ensures Walk(data, At(pos, [AValue] + later), steps) == Onwards(ScanValue(data, pos, fuel), later)
    decreases fuel, 0
  {
    hide Find, TextStep, ScanBody;
    var p := At(pos, [AValue] + later);
    assert p.wants[1..] == later;
    if pos < |data| && (data[pos] == CHAR_l || data[pos] == CHAR_d) {
      var more := BodyPath(data, pos + 1, data[pos] == CHAR_d, fuel - 1, later);
      steps := 1 + more;
      assert Move(data, p) == At(pos + 1, [TheRest(data[pos] == CHAR_d)] + later);
    } else {
      steps := 1;
      assert Walk(data, p, 1) == Walk(data, Move(data, p), 0);
    }
  }

  lemma {:induction false} BodyPath(data: Text, pos: nat, dict: bool, fuel: nat, later: seq<Want>) returns (steps: nat)
    requires ScanBody(data, pos, dict, fuel) != Unfinished
    ensures Walk(data, At(pos, [TheRest(dict)] + later), steps) == Onwards(ScanBody(data, pos, dict, fuel), later)
    decreases fuel, 0
  {
    hide ScanValue, Walk;
    var p, after := At(pos, [TheRest(dict)] + later), [TheRest(dict)] + later;
    assert p.wants[1..] == later;
    steps := 1;
    OneStep(data, p);
    if pos < |data| && data[pos] != CHAR_e {
      assert [AValue, AValue] + after == [AValue] + ([AValue] + after);
      var key := if dict then ScanValue(data, pos, fuel - 1) else End(pos);
      if dict { steps := ValueOnPath(data, p, steps, pos, fuel - 1, [AValue] + after); }
      if key.End? {
        var value := ScanValue(data, key.pos, fuel - 1);
        steps := ValueOnPath(data, p, steps, key.pos, fuel - 1, after);
        if value.End? {
          var more := BodyPath(data, value.pos, dict, fuel - 1, later);
          WalkOn(data, p, steps, more);
          steps := steps + more;
        }
      }
    }
  }

  lemma OneStep(data: Text, p: Point)
    ensures Walk(data, p, 1) == Move(data, p)
  {
    hide Move;
    assert Walk(data, Move(data, p), 0) == Move(data, p);
  }

  lemma {:induction false} ValueOnPath(data: Text, p: Point, before: nat, pos: nat, fuel: nat, later: seq<Want>) returns (steps: nat)
    requires Walk(data, p, before) == At(pos, [AValue] + later) && ScanValue(data, pos, fuel) != Unfinished
    ensures steps >= before && Walk(data, p, steps) == Onwards(ScanValue(data, pos, fuel), later)
    decreases fuel, 1
  {
    hide Walk, ScanValue;
    var more := ValuePath(data, pos, fuel, later);
    WalkOn(data, p, before, more);
    steps := before + more;
  }

  lemma StillRunning(data: Text, p: Point, a: nat, b: nat)
    requires a <= b && Running(Walk(data, p, b))
    ensures Running(Walk(data, p, a))
  {
    hide Walk, Running;
    WalkOn(data, p, a, b - a);
    if !Running(Walk(data, p, a)) { Stays(data, Walk(data, p, a), b - a); }
  }

  /** While the scan has no answer the path goes on. */
  lemma {:induction false} ValueRuns(data: Text, pos: nat, fuel: nat, later: seq<Want>)
    requires ScanValue(data, pos, fuel) == Unfinished
    ensures Running(Walk(data, At(pos, [AValue] + later), fuel))
    decreases fuel
  {
    hide Find, TextLength, ScanBody;
    var p := At(pos, [AValue] + later);
    assert p.wants[1..] == later;
    if fuel > 0 {
      BodyRuns(data, pos + 1, data[pos] == CHAR_d, fuel - 1, later);
      assert Move(data, p) == At(pos + 1, [TheRest(data[pos] == CHAR_d)] + later);
    }
  }

  lemma {:induction false} BodyRuns(data: Text, pos: nat, dict: bool, fuel: nat, later: seq<Want>)
    requires ScanBody(data, pos, dict, fuel) == Unfinished
    ensures Running(Walk(data, At(pos, [TheRest(dict)] + later), fuel))
    decreases fuel
  {
    if fuel > 0 {
      hide ScanValue, Walk;
      var p, after := At(pos, [TheRest(dict)] + later), [TheRest(dict)] + later;
      OneStep(data, p);
      assert [AValue, AValue] + after == [AValue] + ([AValue] + after);
      var key := if dict then ScanValue(data, pos, fuel - 1) else End(pos);
      var steps := 1;
      if dict && key == Unfinished {
        ValueRuns(data, pos, fuel - 1, [AValue] + after);
      } else {
        if dict { steps := ValueOnPath(data, p, steps, pos, fuel - 1, [AValue] + after); }
        var value := ScanValue(data, key.pos, fuel - 1);
        if value == Unfinished {
          ValueRuns(data, key.pos, fuel - 1, after);
        } else {
          steps := ValueOnPath(data, p, steps, key.pos, fuel - 1, after);
          BodyRuns(data, value.pos, dict, fuel - 1, later);
        }
      }
      WalkOn(data, p, steps, fuel - 1);
      StillRunning(data, p, fuel, steps + (fuel - 1));
    }
  }

  /** The scan refuses, with fuel enough, exactly if its path strands. */
  lemma RefusedExactly(data: Text, pos: nat, fuel: nat)
    requires pos <= |data| && fuel >= Limit(data)
    ensures ScanValue(data, pos, fuel) == Refused <==> Strands(data, pos)
  {
    hide ScanValue, Walk;
    var start := At(pos, [AValue]);
    assert start == At(pos, [AValue] + []);
    if ScanValue(data, pos, fuel) == Refused {
      var steps := ValuePath(data, pos, fuel, []);
      assert Walk(data, start, steps) == Stuck;
    }
    if Strands(data, pos) {
      var steps: nat :| Walk(data, start, steps) == Stuck;
      if ScanValue(data, pos, steps) == Unfinished {
        ValueRuns(data, pos, steps, []);
      } else {
        EnoughIsEnough(data, pos, steps, fuel);
        var others := ValuePath(data, pos, steps, []);
        WalkOn(data, start, steps, others);
        WalkOn(data, start, others, steps);
        Stays(data, Walk(data, start, steps), others);
        Stays(data, Walk(data, start, others), steps);
      }
    }
  }

  lemma EnoughIsEnough(data: Text, pos: nat, some: nat, fuel: nat)
    requires pos <= |data| && fuel >= Limit(data) && ScanValue(data, pos, some) != Unfinished
    ensures ScanValue(data, pos, fuel) == ScanValue(data, pos, some)
  {
    hide ScanValue;
    WithinLimit(data, pos, some);
    MoreFuel(data, pos, Limit(data), fuel);
  }

  /** The scan gives the reference's answer exactly if nothing derails it, or its path then strands. */
  lemma ScanAnswersExactly(data: Text, pos: nat, fuel: nat)
    requires |data| < TWO_31 && pos <= |data| && fuel >= Limit(data)
    ensures ScanValue(data, pos, fuel) == Answer(SkipValue(data, pos)) <==> (Derails(data, pos) ==> Strands(data, pos))
  {
    hide SkipValue, ScanValue, Derails, Strands;
    RefusedExactly(data, pos, fuel);
    if Derails(data, pos) {
      if SkipValue(data, pos).Some? { EndMeansOnTrack(data, pos); }
    } else {
      ScanFollows(data, pos, fuel);
    }
  }
}
