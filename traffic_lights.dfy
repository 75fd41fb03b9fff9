/**
 * The traffic-light controller of a pedestrian crossing: a lookup table from state to the two
 * lights, a wait that the pedestrian button may cut short while cars have green, the three-phase
 * cycle of the driver loop and the status line it logs.
 */
module TrafficLights {
  import opened Text
  import opened Options

  datatype Light = Red | Green | Yellow

  /** What the car light and the pedestrian light show. */
  datatype Lights = Lights(car: Light, pedestrian: Light)

  /**
   * A safe crossing: pedestrians see green exactly when cars see red, so the two are never green
   * together, and the pedestrian light is never yellow.
   */
  predicate Safe(l: Lights) {
    l.pedestrian != Yellow && (l.pedestrian == Green <==> l.car == Red)
  }

  /** The lights table of `change_lights`: no entry for a state outside 1, 2 and 3. */
  function LightsOf(state: int): (l: Option<Lights>)
    ensures l.Some? <==> 1 <= state <= 3
    ensures l.Some? ==> Safe(l.value)
    ensures l.Some? ==> (l.value.car == Green <==> state == 2)
    ensures l.Some? ==> (l.value.pedestrian == Green <==> state == 1)
  {
    if state == 1 then Some(Lights(car := Red, pedestrian := Green))
    else if state == 2 then Some(Lights(car := Green, pedestrian := Red))
    else if state == 3 then Some(Lights(car := Yellow, pedestrian := Red))
    else None
  }

  /** The safe pairs of lights are exactly the table's entries. */
  lemma SafeIsTable(l: Lights)
    ensures Safe(l) <==> (l == LightsOf(1).value || l == LightsOf(2).value || l == LightsOf(3).value)
  {
  }

  /** In every state of the table the car light and the pedestrian light are never both green. */
  lemma NeverBothGreen(state: int)
    requires LightsOf(state).Some?
    ensures !(LightsOf(state).value.car == Green && LightsOf(state).value.pedestrian == Green)
  {
  }

  // ---------------------------------------------------------------------------------------------
  // Waiting in a state

  /** Some clock reading from poll i on has reached the delay. */
  predicate Reaches(clock: seq<int>, delay: int, i: nat) {
    exists k :: i <= k < |clock| && clock[k] >= delay
  }

  /** The button was pressed before one of the polls i .. n-1. */
  predicate Pressed(presses: seq<bool>, i: nat, n: nat) {
    exists j :: i <= j < n && j < |presses| && presses[j]
  }

  /** How a wait ended: the polls it took, whether the button cut it, the button flag after it, and the last elapsed time read. */
  datatype WaitResult = WaitResult(polls: nat, cut: bool, button: bool, waited: int)

  /**
   * The polling loop of `change_state` from poll i on, with `current` the elapsed seconds read last
   * and `button` the flag before poll i. Poll j reads the elapsed seconds `clock[j]`; `presses[j]`
   * says whether the pedestrian button was pressed since the previous poll. In state 2 a set flag is
   * cleared and ends the wait; in any other state it stays set.
   */
  function Wait(state: int, button: bool, delay: int, clock: seq<int>, presses: seq<bool>, i: nat, current: int): (w: WaitResult)
    requires |presses| == |clock| && i <= |clock|
    requires current >= delay || Reaches(clock, delay, i)
    ensures i <= w.polls <= |clock|
    ensures w.polls == i <==> current >= delay
    ensures w.polls == i ==> !w.cut && w.button == button && w.waited == current
    ensures w.polls > i ==> w.waited == clock[w.polls - 1]
    ensures forall j :: i <= j < w.polls - 1 ==> clock[j] < delay
    ensures !w.cut ==> w.waited >= delay && w.button == (button || Pressed(presses, i, w.polls))
    ensures w.cut ==> state == 2 && !w.button && (button || Pressed(presses, i, w.polls))
    ensures w.cut && w.polls > i + 1 ==> !(button || Pressed(presses, i, w.polls - 1))
    ensures state == 2 && w.polls > i ==> !w.button
    decreases |clock| - i
  {
    if current >= delay then WaitResult(i, false, button, current)
    else
      var pressed := button || presses[i];
      if state == 2 && pressed then WaitResult(i + 1, true, false, clock[i])
      else Wait(state, pressed, delay, clock, presses, i + 1, clock[i])
  }

  /** Outside state 2 the button never shortens a wait: it lasts until the delay has elapsed, and the flag keeps every press. */
  lemma ButtonKeptOutsideGreen(state: int, button: bool, delay: int, clock: seq<int>, presses: seq<bool>)
    requires state != 2 && |presses| == |clock| && (delay <= 0 || Reaches(clock, delay, 0))
    ensures var w := Wait(state, button, delay, clock, presses, 0, 0);
            w.waited >= delay && w.button == (button || Pressed(presses, 0, w.polls))
  {
  }

  /** In state 2 with no press before the delay elapses, the wait runs to the first reading past the delay. */
  lemma UnpressedGreenRunsFull(button: bool, delay: int, clock: seq<int>, presses: seq<bool>, k: nat)
    requires |presses| == |clock| && k < |clock| && delay > 0 && clock[k] >= delay
    requires forall j :: 0 <= j < k ==> clock[j] < delay
    requires !button && forall j :: 0 <= j <= k ==> !presses[j]
    ensures var w := Wait(2, button, delay, clock, presses, 0, 0);
            !w.cut && w.polls == k + 1 && w.waited == clock[k] && !w.button
  {
  }

  /**
   * The three waits of one pass of `run`: 10 seconds in the state the pass starts in, 20 in state 2,
   * where the button may cut the wait, and 2 in state 3, each starting from the flag the one before left.
   */
  function CycleWaits(state: int, button: bool, clocks: seq<seq<int>>, presses: seq<seq<bool>>): (ws: seq<WaitResult>)
    requires |clocks| == 3 && |presses| == 3 && forall k :: 0 <= k < 3 ==> |presses[k]| == |clocks[k]|
    requires Reaches(clocks[0], 10, 0) && Reaches(clocks[1], 20, 0) && Reaches(clocks[2], 2, 0)
    ensures |ws| == 3
    ensures state != 2 ==> !ws[0].cut && ws[0].waited >= 10
    ensures !ws[1].cut ==> ws[1].waited >= 20
    ensures ws[1].cut ==> !ws[1].button
    ensures !ws[2].cut && ws[2].waited >= 2
    ensures ws[2].button == (ws[1].button || Pressed(presses[2], 0, ws[2].polls))
  {
    var w1 := Wait(state, button, 10, clocks[0], presses[0], 0, 0);
    var w2 := Wait(2, w1.button, 20, clocks[1], presses[1], 0, 0);
    var w3 := Wait(3, w2.button, 2, clocks[2], presses[2], 0, 0);
    [w1, w2, w3]
  }

  /** A pass that starts with the flag clear and sees no press leaves the flag clear. */
  lemma UnpressedCycleKeepsFlagClear(state: int, clocks: seq<seq<int>>, presses: seq<seq<bool>>)
    requires |clocks| == 3 && |presses| == 3 && forall k :: 0 <= k < 3 ==> |presses[k]| == |clocks[k]|
    requires Reaches(clocks[0], 10, 0) && Reaches(clocks[1], 20, 0) && Reaches(clocks[2], 2, 0)
    requires forall k, j :: 0 <= k < 3 && 0 <= j < |presses[k]| ==> !presses[k][j]
    ensures !CycleWaits(state, false, clocks, presses)[2].button
  {
    var ws := CycleWaits(state, false, clocks, presses);
    assert !Pressed(presses[0], 0, ws[0].polls);
    assert !Pressed(presses[1], 0, ws[1].polls);
    assert !Pressed(presses[2], 0, ws[2].polls);
  }

  // ---------------------------------------------------------------------------------------------
  // The status line

  /** The colour names the controller stores and logs. */
  function Name(l: Light): string {
    match l
    case Red => "red"
    case Green => "green"
    case Yellow => "yellow"
  }

  /** The light a colour name stands for. */
  function LightNamed(s: string): (l: Option<Light>)
    ensures l.Some? ==> Name(l.value) == s
  {
    if s == "red" then Some(Red) else if s == "green" then Some(Green) else if s == "yellow" then Some(Yellow) else None
  }

  lemma NameRoundTrip(l: Light)
    ensures LightNamed(Name(l)) == Some(l)
  {
  }

  /** The words of `state_info`'s line: run time, state, pedestrian light and car light among fixed words. */
  function InfoWords(runTime: int, state: int, l: Lights): seq<string> {
    [IntText(runTime), "seconds", "|", "State", IntText(state), "->", "Pedestrian", "light:", Name(l.pedestrian),
     "|", "Car", "light:", Name(l.car)]
  }

  /** `state_info`: the words of the line separated by single spaces, as the format string lays them out. */
  function InfoText(runTime: int, state: int, l: Lights): string {
    Join(InfoWords(runTime, state, l), ' ')
  }

  /** What a status line reports. */
  datatype Info = Info(runTime: int, state: int, lights: Lights)

  /** Reads a status line back: its thirteen space-separated words with the numbers and colour names in their places. */
  function ParseInfo(s: string): Option<Info> {
    var w := Split(s, ' ');
    if |w| == 13 && w[1] == "seconds" && w[2] == "|" && w[3] == "State" && w[5] == "->" &&
       w[6] == "Pedestrian" && w[7] == "light:" && w[9] == "|" && w[10] == "Car" && w[11] == "light:" &&
       IsIntText(w[0]) && IsIntText(w[4]) && LightNamed(w[8]).Some? && LightNamed(w[12]).Some?
    then Some(Info(ParseInt(w[0]), ParseInt(w[4]), Lights(car := LightNamed(w[12]).value, pedestrian := LightNamed(w[8]).value)))
    else None
  }

  /** No word of a status line holds a space. */
  lemma InfoWordsHaveNoSpace(runTime: int, state: int, l: Lights)
    ensures forall k :: 0 <= k < |InfoWords(runTime, state, l)| ==> ' ' !in InfoWords(runTime, state, l)[k]
  {
    IntTextHasNoSpace(runTime);
    IntTextHasNoSpace(state);
    assert ' ' !in Name(l.pedestrian) && ' ' !in Name(l.car);
  }

  /** A status line splits at its spaces into its words. */
  lemma InfoSplit(runTime: int, state: int, l: Lights)
    ensures Split(InfoText(runTime, state, l), ' ') == InfoWords(runTime, state, l)
  {
    InfoWordsHaveNoSpace(runTime, state, l);
    SplitJoin(InfoWords(runTime, state, l), ' ');
  }

  /** A status line loses nothing: reading it back gives the run time, the state and both lights. */
  lemma InfoRoundTrip(runTime: int, state: int, l: Lights)
    ensures ParseInfo(InfoText(runTime, state, l)) == Some(Info(runTime, state, l))
  {
    InfoSplit(runTime, state, l);
    ParseIntText(runTime);
    ParseIntText(state);
    NameRoundTrip(l.pedestrian);
    NameRoundTrip(l.car);
  }

  // ---------------------------------------------------------------------------------------------
  // The controller

  /** `TrafficLight`: the state, the pedestrian button flag, both lights and the run time in seconds. */
  class TrafficLight {
    var state: int
    var pedestrianBtn: bool
    var carLight: Light
    var pedestrianLight: Light
    var runTime: int

    /** The lights shown always form a safe pair. */
    ghost predicate Valid()
      reads this
    {
      Safe(Lights(carLight, pedestrianLight))
    }

    /** State 1: cars red, pedestrians green, the button not pressed. */
    constructor ()
      ensures Valid()
      ensures state == 1 && !pedestrianBtn && carLight == Red && pedestrianLight == Green && runTime == 0
      ensures LightsOf(state) == Some(Lights(carLight, pedestrianLight))
    {
      state := 1;
      pedestrianBtn := false;
      carLight := Red;
      pedestrianLight := Green;
      runTime := 0;
    }

    /** The GUI's pedestrian button sets the flag. */
    method PressButton()
      modifies this
      ensures pedestrianBtn
      ensures state == old(state) && carLight == old(carLight) && pedestrianLight == old(pedestrianLight)
      ensures runTime == old(runTime)
    {
      pedestrianBtn := true;
    }

    /**
     * `change_lights`: the state becomes s and the lights come from the table; a state with no
     * entry (the `KeyError`) is reported by `ok` being false and leaves the lights as they were.
     */
    method ChangeLights(s: int) returns (ok: bool)
      requires Valid()
      modifies this
      ensures Valid()
      ensures state == s && pedestrianBtn == old(pedestrianBtn) && runTime == old(runTime)
      ensures ok <==> LightsOf(s).Some?
      ensures ok ==> Lights(carLight, pedestrianLight) == LightsOf(s).value
      ensures !ok ==> carLight == old(carLight) && pedestrianLight == old(pedestrianLight)
    {
      state := s;
      match LightsOf(state)
      case None =>
        ok := false;
      case Some(l) =>
        carLight := l.car;
        pedestrianLight := l.pedestrian;
        ok := true;
    }

    /**
     * The polling loop of `change_state`: reads the clock until `delay` seconds have elapsed or, in
     * state 2, the pedestrian button is found pressed, which clears it. `clock[j]` is the elapsed time
     * read at poll j and `presses[j]` whether the button was pressed since the poll before. Only the
     * button flag changes; the wait ends as `Wait` says.
     */
    method AwaitDelay(delay: int, clock: seq<int>, presses: seq<bool>) returns (polls: nat, waited: int)
      requires |presses| == |clock| && (delay <= 0 || Reaches(clock, delay, 0))
      modifies this
      ensures var w := Wait(state, old(pedestrianBtn), delay, clock, presses, 0, 0);
              polls == w.polls && waited == w.waited && pedestrianBtn == w.button
      ensures state == old(state) && carLight == old(carLight) && pedestrianLight == old(pedestrianLight)
      ensures runTime == old(runTime)
    {
      ghost var w := Wait(state, pedestrianBtn, delay, clock, presses, 0, 0);
      var currentDelay := 0;
      var i := 0;
      while currentDelay < delay
        invariant 0 <= i <= |clock|
        invariant currentDelay >= delay || Reaches(clock, delay, i)
        invariant state == old(state) && carLight == old(carLight) && pedestrianLight == old(pedestrianLight)
        invariant runTime == old(runTime)
        invariant Wait(state, pedestrianBtn, delay, clock, presses, i, currentDelay) == w
        decreases |clock| - i
      {
        currentDelay := clock[i];
        pedestrianBtn := pedestrianBtn || presses[i];
        i := i + 1;
        if state == 2 && pedestrianBtn {
          pedestrianBtn := false;
          assert w == WaitResult(i, true, false, currentDelay);
          break;
        }
      }
      polls, waited := i, currentDelay;
    }

    /**
     * `change_state`: waits as `AwaitDelay` does, then moves to `dstState`, records the run time
     * `now` and sets the lights for it.
     */
    method ChangeState(dstState: int, delay: int, clock: seq<int>, presses: seq<bool>, now: int)
      returns (polls: nat, waited: int, ok: bool)
      requires Valid() && |presses| == |clock| && (delay <= 0 || Reaches(clock, delay, 0))
      modifies this
      ensures Valid()
      ensures var w := Wait(old(state), old(pedestrianBtn), delay, clock, presses, 0, 0);
              polls == w.polls && waited == w.waited && pedestrianBtn == w.button
      ensures state == dstState && runTime == now
      ensures ok <==> LightsOf(dstState).Some?
      ensures ok ==> Lights(carLight, pedestrianLight) == LightsOf(dstState).value
      ensures !ok ==> carLight == old(carLight) && pedestrianLight == old(pedestrianLight)
    {
      polls, waited := AwaitDelay(delay, clock, presses);
      state := dstState;
      runTime := now;
      ok := ChangeLights(state);
    }

    /** `state_info`: the status line of the current run time, state and lights. */
    function StateInfo(): (s: string)
      reads this
      ensures ParseInfo(s) == Some(Info(runTime, state, Lights(carLight, pedestrianLight)))
    {
      InfoRoundTrip(runTime, state, Lights(carLight, pedestrianLight));
      InfoText(runTime, state, Lights(carLight, pedestrianLight))
    }

    /**
     * One pass of `run`'s endless loop: green for cars after 10 seconds, yellow after 20 more (the
     * pedestrian button may end this one early), red after 2 more, logging the status line after
     * each change. `clocks[k]`, `presses[k]` drive the k-th wait and `times` are the run-time
     * readings, the first at the top of the pass.
     */
    method RunCycle(clocks: seq<seq<int>>, presses: seq<seq<bool>>, times: seq<int>)
      returns (logs: seq<string>, waits: seq<int>)
      requires Valid() && |clocks| == 3 && |presses| == 3 && |times| == 4
      requires forall k :: 0 <= k < 3 ==> |presses[k]| == |clocks[k]|
      requires Reaches(clocks[0], 10, 0) && Reaches(clocks[1], 20, 0) && Reaches(clocks[2], 2, 0)
      modifies this
      ensures Valid()
      ensures state == 1 && carLight == Red && pedestrianLight == Green && runTime == times[3]
      ensures logs == [InfoText(times[1], 2, Lights(Green, Red)), InfoText(times[2], 3, Lights(Yellow, Red)),
                       InfoText(times[3], 1, Lights(Red, Green))]
      ensures var ws := CycleWaits(old(state), old(pedestrianBtn), clocks, presses);
              pedestrianBtn == ws[2].button && waits == [ws[0].waited, ws[1].waited, ws[2].waited]
    {
      runTime := times[0];
      var polls0, waited0, ok0 := ChangeState(2, 10, clocks[0], presses[0], times[1]);
      var info0 := StateInfo();
      var polls1, waited1, ok1 := ChangeState(3, 20, clocks[1], presses[1], times[2]);
      var info1 := StateInfo();
      var polls2, waited2, ok2 := ChangeState(1, 2, clocks[2], presses[2], times[3]);
      var info2 := StateInfo();
      logs, waits := [info0, info1, info2], [waited0, waited1, waited2];
    }
  }
}
