/** The thermal level machine (power/thermal.c): six levels, stepped by two temperature alarms that are programmed
    anew at every change of level. */
module Thermal {

  const TOP := 5

  /** An alarm file: it cannot be opened, or it says whether the alarm is on. An unreadable one says off. */
  datatype Reading = NoFile | Alarm(on: bool)

  /** The configured target temperature, if it could be read. */
  datatype Target = Unread | Read(value: int)

  /** The device record, and the two limits the sensor was last given. */
  datatype Dev = Dev(state: int, oldState: int, low: int, high: int, sensorMin: int, sensorMax: int)

  // ---- thresholds ----

  function LowThresholds(target: int): (ls: seq<int>)
    ensures |ls| == TOP
  {
    [target - 15, target - 5, target, target + 10, target + 15]
  }

  function HighThresholds(target: int): (hs: seq<int>)
    ensures |hs| == TOP
  {
    [target - 5, target, target + 10, target + 15, target + 18]
  }

  /** The limits of a level, however it was reached. */
  function Low(target: int, level: int): int
    requires 0 <= level <= TOP
  {
    LowThresholds(target)[if level == 0 then 0 else level - 1]
  }

  function High(target: int, level: int): int
    requires 0 <= level <= TOP
  {
    HighThresholds(target)[if level == TOP then TOP - 1 else level]
  }

  // ---- the machine ----

  /** What memory holds where a table is read outside: any value. */
  datatype Stray = Stray(low: int, high: int)

  function Entry(table: seq<int>, i: int, stray: int): int {
    if 0 <= i < |table| then table[i] else stray
  }

  /** temperature_get_state: the next state, and the limits that go with it. A state below the lowest level is stepped
      like any other, and its limits are read from outside the tables. */
  function GetState(target: int, d: Dev, min: Reading, max: Reading, stray: Stray): Dev {
    if min.NoFile? then d.(state := -1)
    else if min.on then
      var s := if d.state != 0 then d.state - 1 else 0;
      d.(state := s, high := Entry(HighThresholds(target), s, stray.high),
         low := Entry(LowThresholds(target), if s != 0 then s - 1 else s, stray.low))
    else if max.NoFile? then d.(state := -1)
    else if max.on then
      var s := if d.state != TOP then d.state + 1 else TOP;
      d.(state := s, low := Entry(LowThresholds(target), s - 1, stray.low),
         high := Entry(HighThresholds(target), if s != TOP then s else s - 1, stray.high))
    else d
  }

  /** What thermal_set_alarm refuses to give to the sensor. */
  predicate Refused(min: int, max: int) {
    min > max || min == 0 || max == 0
  }

  /** thermal_set_alarm; the two writes may fail, and a failed first one skips the second. */
  function SetAlarm(d: Dev, minTaken: bool, maxTaken: bool): Dev {
    if Refused(d.low, d.high) || !minTaken then d
    else if !maxTaken then d.(sensorMin := d.low)
    else d.(sensorMin := d.low, sensorMax := d.high)
  }

  /** What the outside world answers during one update. */
  datatype World = World(min: Reading, max: Reading, stray: Stray, minTaken: bool, maxTaken: bool)

  predicate IsLevel(state: int) {
    0 <= state <= TOP
  }

  /** thermal_update_state. */
  function Update(target: int, d: Dev, w: World): Dev {
    var e := GetState(target, d, w.min, w.max, w.stray);
    if !IsLevel(e.state) then e
    else if e.oldState != e.state then SetAlarm(e.(oldState := e.state), w.minTaken, w.maxTaken)
    else e
  }

  /** thermal_parse_cfg, before the sensor is programmed. */
  function Configured(target: int, d: Dev): Dev {
    Dev(0, 0, LowThresholds(target)[0], HighThresholds(target)[0], d.sensorMin, d.sensorMax)
  }

  function Init(target: int, d: Dev): Dev {
    SetAlarm(Configured(target, d), true, true)
  }

  // ---- alarms that cannot be read ----

  /** From a level, a step leads to a level if and only if the alarm files it opens exist. */
  lemma LevelKeptExactly(target: int, d: Dev, w: World)
    requires IsLevel(d.state)
    ensures IsLevel(Update(target, d, w).state) <==> w.min.Alarm? && (w.min.on || w.max.Alarm?)
  {
  }

  function After(target: int, d: Dev, ws: seq<World>): Dev {
    if ws == [] then d else Update(target, After(target, d, ws[..|ws| - 1]), ws[|ws| - 1])
  }

  predicate Readable(w: World) {
    w.min.Alarm? && (w.min.on || w.max.Alarm?)
  }

  /** Steps up minus steps down that the alarms ask for. */
  function Climb(ws: seq<World>): int {
    if ws == [] then 0
    else
      var w := ws[|ws| - 1];
      Climb(ws[..|ws| - 1]) + (if w.min.Alarm? && w.min.on then -1 else if w.max.Alarm? && w.max.on then 1 else 0)
  }

  /** A stretch of a run, from the start or from just after an unreadable alarm, in which the alarms could be read and
      asked for a step up more than for steps down. */
  predicate Recovers(ws: seq<World>, i: nat, n: nat)
    requires i <= n <= |ws|
  {
    && (i == 0 || !Readable(ws[i - 1]))
    && (forall k :: i <= k < n ==> Readable(ws[k]))
    && Climb(ws[i..n]) >= 1
  }

  predicate EverLevel(target: int, d: Dev, ws: seq<World>) {
    exists n :: 0 <= n <= |ws| && IsLevel(After(target, d, ws[..n]).state)
  }

  /** Where the last readable stretch of a run starts. */
  function Tail(ws: seq<World>): (i: nat)
    ensures i <= |ws| && (i == 0 || !Readable(ws[i - 1]))
    ensures forall k :: i <= k < |ws| ==> Readable(ws[k])
  {
    if ws == [] then 0
    else if !Readable(ws[|ws| - 1]) then |ws|
    else Tail(ws[..|ws| - 1])
  }

  /** Below the levels the state only counts: -1 at the start of the last readable stretch, then the climb since. */
  lemma {:induction false} LostCounts(target: int, d: Dev, ws: seq<World>)
    requires d.state == -1 && !EverLevel(target, d, ws)
    ensures After(target, d, ws).state == -1 + Climb(ws[Tail(ws)..]) < 0
  {
    assert ws[..|ws|] == ws;
    if ws == [] {
      assert ws[Tail(ws)..] == [];
    } else {
      var first, i := ws[..|ws| - 1], Tail(ws);
      PrefixNever(target, d, ws, |ws| - 1);
      LostCounts(target, d, first);
      if Readable(ws[|ws| - 1]) {
        assert ws[i..] == first[i..] + [ws[|ws| - 1]];
        assert ws[i..][..|ws[i..]| - 1] == first[i..];
      } else {
        assert ws[i..] == [];
      }
    }
  }

  lemma TailIsLast(ws: seq<World>, i: nat)
    requires i <= |ws| && (i == 0 || !Readable(ws[i - 1])) && forall k :: i <= k < |ws| ==> Readable(ws[k])
    ensures i == Tail(ws)
  {
    var t := Tail(ws);
    assert t > 0 ==> !Readable(ws[t - 1]);
    assert i > 0 ==> !Readable(ws[i - 1]);
  }

  lemma PrefixNever(target: int, d: Dev, ws: seq<World>, n: nat)
    requires n <= |ws| && forall m :: 0 <= m <= n ==> !IsLevel(After(target, d, ws[..m]).state)
    ensures !EverLevel(target, d, ws[..n])
  {
    var part := ws[..n];
    forall m | 0 <= m <= |part| ensures !IsLevel(After(target, d, part[..m]).state) {
      assert part[..m] == ws[..m];
    }
  }

  /** As long as no level was reached, no readable stretch asked for one. */
  lemma NotRecovered(target: int, d: Dev, ws: seq<World>, i: nat, n: nat)
    requires d.state == -1 && !EverLevel(target, d, ws) && i <= n <= |ws|
    ensures !Recovers(ws, i, n)
  {
    if (i == 0 || !Readable(ws[i - 1])) && forall k :: i <= k < n ==> Readable(ws[k]) {
      var part := ws[..n];
      PrefixNever(target, d, ws, n);
      LostCounts(target, d, part);
      TailIsLast(part, i);
      assert part[i..] == ws[i..n];
    }
  }

  /** When a lost level comes back: after an alarm file could not be opened, a run reaches a level again if and only if
      some readable stretch of it asks for more steps up than down. */
  lemma ComesBackExactly(target: int, d: Dev, ws: seq<World>)
    requires d.state == -1
    ensures EverLevel(target, d, ws) <==> exists n, i :: 0 <= i <= n <= |ws| && Recovers(ws, i, n)
  {
    if EverLevel(target, d, ws) {
      var n := FirstLevel(target, d, ws);
      BackBy(target, d, ws, n);
    } else {
      forall n, i | 0 <= i <= n <= |ws| ensures !Recovers(ws, i, n) {
        NotRecovered(target, d, ws, i, n);
      }
    }
  }

  lemma FirstLevel(target: int, d: Dev, ws: seq<World>) returns (n: nat)
    requires d.state == -1 && EverLevel(target, d, ws)
    ensures 0 < n <= |ws| && IsLevel(After(target, d, ws[..n]).state) && !EverLevel(target, d, ws[..n - 1])
  {
    hide Update;
    assert ws[..0] == [] && !IsLevel(After(target, d, ws[..0]).state);
    n := 1;
    while !IsLevel(After(target, d, ws[..n]).state)
      invariant 0 < n <= |ws| && forall m :: 0 <= m < n ==> !IsLevel(After(target, d, ws[..m]).state)
      decreases |ws| - n
    {
      n := n + 1;
    }
    PrefixNever(target, d, ws, n - 1);
  }

  /** Only a readable step up leads from below the levels to one. */
  lemma LevelNeedsReadable(target: int, d: Dev, w: World)
    requires d.state < 0 && IsLevel(Update(target, d, w).state)
    ensures Readable(w) && d.state == -1 && !w.min.on && w.max.Alarm? && w.max.on
  {
  }

  lemma ClimbUp(ws: seq<World>, i: nat, n: nat)
    requires i < n <= |ws| && Readable(ws[n - 1]) && !ws[n - 1].min.on && ws[n - 1].max.on
    ensures Climb(ws[i..n]) == Climb(ws[..n - 1][i..]) + 1
  {
    var part := ws[i..n];
    assert part[..|part| - 1] == ws[..n - 1][i..] && part[|part| - 1] == ws[n - 1];
  }

  lemma AfterNext(target: int, d: Dev, ws: seq<World>, n: nat)
    requires 0 < n <= |ws|
    ensures After(target, d, ws[..n]) == Update(target, After(target, d, ws[..n - 1]), ws[n - 1])
  {
    assert ws[..n][..n - 1] == ws[..n - 1];
  }

  /** The step that brings the level back is the one at which the climb of the last readable stretch reaches one. */
  lemma BackBy(target: int, d: Dev, ws: seq<World>, n: nat)
    requires d.state == -1 && 0 < n <= |ws|
    requires IsLevel(After(target, d, ws[..n]).state) && !EverLevel(target, d, ws[..n - 1])
    ensures exists i :: 0 <= i <= n && Recovers(ws, i, n)
  {
    hide Update, EverLevel, After, Climb, Readable;
    var first := ws[..n - 1];
    AfterNext(target, d, ws, n);
    LostCounts(target, d, first);
    LevelNeedsReadable(target, After(target, d, first), ws[n - 1]);
    var i := Tail(first);
    ClimbUp(ws, i, n);
    assert forall k :: i <= k < n - 1 ==> first[k] == ws[k];
    assert Recovers(ws, i, n);
  }

  /** A step between levels gives the record the limits of its new level, whatever was there before: after a level came
      back with stray limits, the first alarm repairs the record. */
  lemma StepRepairs(target: int, d: Dev, w: World)
    requires IsLevel(d.state) && Readable(w) && (w.min.on || w.max.on)
    ensures var e := Update(target, d, w);
            IsLevel(e.state) && e.low == Low(target, e.state) && e.high == High(target, e.state)
  {
  }

  // ---- alarms that follow the temperature ----

  /** The sensor as the model of the device: each alarm compares with the limit it was given. */
  function Sensed(target: int, d: Dev, temp: int): Dev {
    Update(target, d, World(Alarm(temp <= d.sensorMin), Alarm(temp >= d.sensorMax), Stray(0, 0), true, true))
  }

  /** The record and the sensor agree with the level. */
  predicate Settled(target: int, d: Dev) {
    && 0 <= d.state <= TOP && d.oldState == d.state
    && d.low == d.sensorMin == Low(target, d.state)
    && d.high == d.sensorMax == High(target, d.state)
  }

  /** Zero is not a limit the sensor is given: these targets have a level whose limits are refused. */
  predicate Programmable(target: int) {
    target !in {15, 5, 0, -10, -15, -18}
  }

  lemma ProgrammableExactly(target: int)
    ensures Programmable(target) <==>
            forall level :: 0 <= level <= TOP ==> !Refused(Low(target, level), High(target, level))
  {
    if !Programmable(target) {
      var level := if target == 15 then 0 else if target == 5 then 2 else if target == 0 then 1
                   else if target == -10 then 2 else if target == -15 then 3 else 5;
      assert Refused(Low(target, level), High(target, level));
    }
  }

  lemma InitSettles(target: int, d: Dev)
    requires Programmable(target)
    ensures Settled(target, Init(target, d)) && Init(target, d).state == 0
    ensures Init(target, d).sensorMin == target - 15 && Init(target, d).sensorMax == target - 5
  {
  }

  /** With limits that can be programmed, every step keeps record and sensor agreeing with the level, moves the
      level by at most one, and moves it up or down exactly when the temperature is beyond the level's own limits. */
  lemma SensedMovesByOne(target: int, d: Dev, temp: int)
    requires Programmable(target) && Settled(target, d)
    ensures var e := Sensed(target, d, temp);
            && Settled(target, e)
            && (e.state == d.state - 1 <==> temp <= Low(target, d.state) && d.state > 0)
            && (e.state == d.state + 1 <==>
               temp >= High(target, d.state) && temp > Low(target, d.state) && d.state < TOP)
            && -1 <= e.state - d.state <= 1
  {
  }

  /** The window of each level in degrees from the target: within it the level stays, at or below it the level falls,
      at or above it the level rises. Neighbouring windows overlap, which is what keeps the level from swinging. */
  lemma WindowInDegrees(target: int, d: Dev, temp: int)
    requires Programmable(target) && Settled(target, d)
    ensures var s, off := Sensed(target, d, temp).state, temp - target;
            && (d.state == 0 ==> s == if off >= -5 then 1 else 0)
            && (d.state == 1 ==> s == if off <= -15 then 0 else if off >= 0 then 2 else 1)
            && (d.state == 2 ==> s == if off <= -5 then 1 else if off >= 10 then 3 else 2)
            && (d.state == 3 ==> s == if off <= 0 then 2 else if off >= 15 then 4 else 3)
            && (d.state == 4 ==> s == if off <= 10 then 3 else if off >= 18 then 5 else 4)
            && (d.state == 5 ==> s == if off <= 15 then 4 else 5)
  {
    SensedMovesByOne(target, d, temp);
  }

  /** Limits fit to be given to the sensor. */
  predicate Sent(d: Dev) {
    d.low != 0 && d.high != 0 && d.low <= d.high
  }

  /** What one update gives to the sensor: nothing, the lower limit, or both, and both only together in order. Limits
      that are zero or out of order never reach it, and a failed first write stops the second. */
  lemma SensorTakes(target: int, d: Dev, w: World)
    ensures var e := Update(target, d, w);
            && (e.sensorMin == d.sensorMin || (w.minTaken && e.sensorMin == e.low && Sent(e)))
            && (e.sensorMax == d.sensorMax ||
                (w.minTaken && w.maxTaken && e.sensorMin == e.low && e.sensorMax == e.high && Sent(e)))
            && (d.sensorMin <= d.sensorMax && (w.minTaken ==> w.maxTaken) ==> e.sensorMin <= e.sensorMax)
            && (IsLevel(e.state) && e.state != d.oldState && w.minTaken && w.maxTaken && Sent(e) ==>
                e.sensorMin == e.low && e.sensorMax == e.high)
  {
  }

  /** In every run whose writes succeed together the sensor's limits stay in order and are never zero, even when the
      record holds values from outside the tables. */
  lemma {:induction false} SensorStaysOrdered(target: int, d: Dev, ws: seq<World>)
    requires d.sensorMin <= d.sensorMax && d.sensorMin != 0 && d.sensorMax != 0
    requires forall k :: 0 <= k < |ws| && ws[k].minTaken ==> ws[k].maxTaken
    ensures var e := After(target, d, ws); e.sensorMin <= e.sensorMax && e.sensorMin != 0 && e.sensorMax != 0
  {
    hide Update;
    if ws != [] {
      SensorStaysOrdered(target, d, ws[..|ws| - 1]);
      SensorTakes(target, After(target, d, ws[..|ws| - 1]), ws[|ws| - 1]);
    }
  }

  function SensedRun(target: int, d: Dev, temps: seq<int>): (e: Dev)
    requires Programmable(target) && Settled(target, d)
    ensures Settled(target, e)
  {
    if temps == [] then d
    else
      var before := SensedRun(target, d, temps[..|temps| - 1]);
      SensedMovesByOne(target, before, temps[|temps| - 1]);
      Sensed(target, before, temps[|temps| - 1])
  }

  /** The level at which a temperature leaves the machine alone. */
  predicate Rests(target: int, level: int, temp: int)
    requires 0 <= level <= TOP
  {
    (temp > Low(target, level) || level == 0) && (temp < High(target, level) || level == TOP)
  }

  /** A temperature that moved the level one way cannot move it back. */
  lemma NoReverse(target: int, d: Dev, temp: int)
    requires Programmable(target) && Settled(target, d)
    ensures var e := Sensed(target, d, temp);
            && Settled(target, e)
            && var f := Sensed(target, e, temp);
               (e.state > d.state ==> f.state >= e.state) && (e.state < d.state ==> f.state <= e.state)
  {
    SensedMovesByOne(target, d, temp);
    SensedMovesByOne(target, Sensed(target, d, temp), temp);
  }

  function Held(temp: int, n: nat): seq<int> {
    seq(n, _ => temp)
  }

  predicate Rising(target: int, level: int, temp: int)
    requires 0 <= level <= TOP
  {
    temp > Low(target, level) && temp >= High(target, level) && level < TOP
  }

  predicate Falling(target: int, level: int, temp: int)
    requires 0 <= level <= TOP
  {
    temp <= Low(target, level) && level > 0
  }

  /** One step under a temperature: at rest nothing moves, and the level one moves to is at rest or goes on the same
      way. */
  lemma StepGoesOn(target: int, d: Dev, temp: int)
    requires Programmable(target) && Settled(target, d)
    ensures var e := Sensed(target, d, temp);
            && Settled(target, e)
            && (Rests(target, d.state, temp) || Rising(target, d.state, temp) || Falling(target, d.state, temp))
            && (Rests(target, d.state, temp) ==> e.state == d.state)
            && (Rising(target, d.state, temp) ==> e.state == d.state + 1 && !Falling(target, e.state, temp))
            && (Falling(target, d.state, temp) ==> e.state == d.state - 1 && !Rising(target, e.state, temp))
  {
    SensedMovesByOne(target, d, temp);
  }

  /** How a constant temperature moves the level: always the same way, one level a step, until it rests. */
  lemma {:induction false} HeldMoves(target: int, d: Dev, temp: int, n: nat)
    requires Programmable(target) && Settled(target, d)
    ensures var s := SensedRun(target, d, Held(temp, n)).state;
            && (Rests(target, s, temp) || Rising(target, s, temp) || Falling(target, s, temp))
            && (Rising(target, s, temp) ==> s == d.state + n)
            && (Falling(target, s, temp) ==> s == d.state - n)
            && (!Falling(target, d.state, temp) ==> s >= d.state)
            && (!Rising(target, d.state, temp) ==> s <= d.state)
    ensures n > 0 && Rests(target, SensedRun(target, d, Held(temp, n - 1)).state, temp) ==>
            SensedRun(target, d, Held(temp, n)).state == SensedRun(target, d, Held(temp, n - 1)).state
  {
    hide Sensed, Rests, Low, High;
    if n == 0 {
      StepGoesOn(target, d, temp);
    } else {
      var run := Held(temp, n);
      assert run[..n - 1] == Held(temp, n - 1);
      HeldMoves(target, d, temp, n - 1);
      var before := SensedRun(target, d, Held(temp, n - 1));
      StepGoesOn(target, before, temp);
      StepGoesOn(target, Sensed(target, before, temp), temp);
    }
  }

  /** Under a constant temperature the level settles within five steps and never moves again. */
  lemma {:induction false} HeldSettles(target: int, d: Dev, temp: int, n: nat)
    requires Programmable(target) && Settled(target, d) && n >= TOP
    ensures SensedRun(target, d, Held(temp, n)).state == SensedRun(target, d, Held(temp, TOP)).state
    ensures Rests(target, SensedRun(target, d, Held(temp, n)).state, temp)
    decreases n
  {
    hide Sensed, Rests, SensedRun, Held;
    HeldMoves(target, d, temp, n);
    if n > TOP {
      HeldSettles(target, d, temp, n - 1);
    }
  }

  // ---- the device record in place ----

  class ThermalDevice {
    const lthreshold: array<int>
    const hthreshold: array<int>
    ghost var target: int
    var state: int
    var oldState: int
    var ltemp: int
    var htemp: int
    var sensorMin: int
    var sensorMax: int

    ghost predicate Valid()
      reads this, lthreshold, hthreshold
    {
      lthreshold != hthreshold && lthreshold[..] == LowThresholds(target) && hthreshold[..] == HighThresholds(target)
    }

    ghost function View(): Dev
      reads this
    {
      Dev(state, oldState, ltemp, htemp, sensorMin, sensorMax)
    }

    /** The record before it is configured. */
    constructor (sensorMin: int, sensorMax: int)
      ensures lthreshold.Length == hthreshold.Length == TOP && lthreshold != hthreshold
      ensures fresh(lthreshold) && fresh(hthreshold)
      ensures View() == Dev(0, 0, 0, 0, sensorMin, sensorMax)
    {
      lthreshold := new int[TOP](_ => 0);
      hthreshold := new int[TOP](_ => 0);
      state, oldState, ltemp, htemp := 0, 0, 0, 0;
      this.sensorMin, this.sensorMax := sensorMin, sensorMax;
    }

    method Clear(table: array<int>)
      modifies table
      ensures forall k :: 0 <= k < table.Length ==> table[k] == 0
    {
      var k := 0;
      while k < table.Length
        invariant 0 <= k <= table.Length && forall i :: 0 <= i < k ==> table[i] == 0
      {
        table[k] := 0;
        k := k + 1;
      }
    }

    method FillTables(t: int)
      requires lthreshold.Length == hthreshold.Length == TOP && lthreshold != hthreshold
      modifies lthreshold, hthreshold
      ensures lthreshold[..] == LowThresholds(t) && hthreshold[..] == HighThresholds(t)
    {
      lthreshold[0], lthreshold[1], lthreshold[2], lthreshold[3], lthreshold[4] := t - 15, t - 5, t, t + 10, t + 15;
      hthreshold[0], hthreshold[1], hthreshold[2], hthreshold[3], hthreshold[4] := t - 5, t, t + 10, t + 15, t + 18;
    }

    /** thermal_parse_cfg: a target that cannot be read leaves the record empty; one that can is capped, and the limits
        of level 0 go to the sensor. */
    method ParseCfg(configured: Target, minTaken: bool, maxTaken: bool) returns (done: bool)
      requires lthreshold.Length == hthreshold.Length == TOP && lthreshold != hthreshold
      modifies this, lthreshold, hthreshold
      ensures configured.Read? ==> Valid() && target == if configured.value > 100 then 100 else configured.value
      ensures configured.Read? ==> View() == SetAlarm(Configured(target, old(View())), minTaken, maxTaken)
      ensures configured.Unread? ==> !done && View() == Dev(0, 0, 0, 0, old(sensorMin), old(sensorMax))
      ensures configured.Unread? ==> forall k :: 0 <= k < TOP ==> lthreshold[k] == hthreshold[k] == 0
    {
      Clear(lthreshold);
      Clear(hthreshold);
      state, oldState, ltemp, htemp := 0, 0, 0, 0;
      if configured.Unread? {
        return false;
      }
      var t := if configured.value > 100 then 100 else configured.value;
      target := t;
      FillTables(t);
      ltemp, htemp := lthreshold[0], hthreshold[0];
      done := Program(ltemp, htemp, minTaken, maxTaken);
    }

    /** thermal_set_alarm. */
    method Program(minAlarm: int, maxAlarm: int, minTaken: bool, maxTaken: bool) returns (done: bool)
      modifies this`sensorMin, this`sensorMax
      ensures done == (!Refused(minAlarm, maxAlarm) && minTaken && maxTaken)
      ensures sensorMin == if !Refused(minAlarm, maxAlarm) && minTaken then minAlarm else old(sensorMin)
      ensures sensorMax == if done then maxAlarm else old(sensorMax)
    {
      if minAlarm > maxAlarm || minAlarm == 0 || maxAlarm == 0 {
        return false;
      }
      if !minTaken {
        return false;
      }
      sensorMin := minAlarm;
      if maxTaken {
        sensorMax := maxAlarm;
      }
      done := maxTaken;
    }

    /** A threshold, or whatever lies beside the table. */
    method Threshold(table: array<int>, i: int, stray: int) returns (t: int)
      ensures t == Entry(table[..], i, stray)
    {
      t := if 0 <= i < table.Length then table[i] else stray;
    }

    method ReadState(min: Reading, max: Reading, stray: Stray) returns (s: int)
      requires Valid()
      modifies this`ltemp, this`htemp
      ensures Valid() && View().(state := s) == GetState(target, old(View()), min, max, stray)
    {
      s := state;
      if min.NoFile? {
        return -1;
      }
      if min.on {
        s := if state != 0 then state - 1 else 0;
        htemp := Threshold(hthreshold, s, stray.high);
        ltemp := Threshold(lthreshold, if s != 0 then s - 1 else s, stray.low);
        return;
      }
      if max.NoFile? {
        return -1;
      }
      if max.on {
        s := if state != TOP then state + 1 else TOP;
        ltemp := Threshold(lthreshold, s - 1, stray.low);
        htemp := Threshold(hthreshold, if s != TOP then s else s - 1, stray.high);
      }
    }

    /** thermal_update_state; what a level switches on and off is not part of this model. */
    method UpdateState(w: World)
      requires Valid()
      modifies this`state, this`oldState, this`ltemp, this`htemp, this`sensorMin, this`sensorMax
      ensures Valid() && View() == Update(target, old(View()), w)
    {
      var s := ReadState(w.min, w.max, w.stray);
      state := s;
      if state < 0 || state > TOP {
        return;
      }
      if oldState != state {
        oldState := state;
        var _ := Program(ltemp, htemp, w.minTaken, w.maxTaken);
      }
    }
  }
}
