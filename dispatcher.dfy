/*
 * The control loop of src/main.rs: a state machine over the on/off flag, the
 * volume, the three preset menu labels and the tray icon, driven by the values
 * the tray menu items put on the channel, applied one at a time in arrival
 * order.
 */
module Dispatcher {

  /** The value the On/Off menu item sends; every other value is a volume. */
  const Toggle: real := -1.0

  /** The volume presets, in menu order. */
  const Presets: seq<real> := [0.10, 0.25, 1.00]

  const IconOn: string := "icon_on"
  const IconOff: string := "icon_off"

  /** The menu items that send on the channel (the Exit item exits instead). */
  datatype MenuItem = Percent10 | Percent25 | Percent100 | OnOff

  /** Position of an item in the tray menu. */
  function Position(item: MenuItem): nat
  {
    match item
    case Percent10 => 0
    case Percent25 => 1
    case Percent100 => 2
    case OnOff => 3
  }

  /** What a click on the item sends. */
  function Message(item: MenuItem): (v: real)
    ensures v == Toggle <==> item == OnOff
    ensures item != OnOff ==> Position(item) < 3 && v == Presets[Position(item)]
  {
    match item
    case Percent10 => 0.10
    case Percent25 => 0.25
    case Percent100 => 1.00
    case OnOff => Toggle
  }

  /** The text of preset label `k`, with or without the current-level marker. */
  function Label(k: nat, marked: bool): string
    requires k < 3
  {
    if k == 0 then (if marked then "10%  <" else "10%")
    else if k == 1 then (if marked then "25%  <" else "25%")
    else (if marked then "100% <" else "100%")
  }

  /** A label shows the current-level marker when it ends in '<'. */
  predicate IsMarked(text: string)
  {
    |text| > 0 && text[|text| - 1] == '<'
  }

  /** Positions of the labels that carry the marker. */
  function MarkedPositions(labels: seq<string>): set<nat>
  {
    set k: nat | k < |labels| && IsMarked(labels[k])
  }

  /** The three labels as the loop rewrites them after volume `v` arrives. */
  function LabelsFor(v: real): (labels: seq<string>)
    ensures |labels| == 3
  {
    [Label(0, v == 0.10), Label(1, v == 0.25), Label(2, v == 1.00)]
  }

  function IconFor(isOn: bool): string
  {
    if isOn then IconOn else IconOff
  }

  /** What the dispatcher owns: playback flag and volume, and what the tray shows. */
  datatype Control = Control(isOn: bool, volume: real, labels: seq<string>, icon: string)

  /** The state at startup: on, volume 0.25, the 25% label marked, the "on" icon. */
  const Initial: Control := Control(true, 0.25, ["10%", "25%  <", "100%"], IconOn)

  /** The tray shows the playback state: labels mark the current volume, the icon the flag. */
  predicate Reflects(s: Control)
  {
    s.labels == LabelsFor(s.volume) && s.icon == IconFor(s.isOn)
  }

  /** One message taken off the channel. */
  function Dispatch(s: Control, v: real): (t: Control)
    ensures v == Toggle ==>
      t.isOn == !s.isOn && t.volume == s.volume && t.labels == s.labels && t.icon == IconFor(t.isOn)
    ensures v != Toggle ==>
      t.volume == v && t.isOn == s.isOn && t.icon == s.icon && |t.labels| == 3 &&
      forall k :: 0 <= k < 3 ==> (IsMarked(t.labels[k]) <==> v == Presets[k])
  {
    if v == Toggle then
      var isOn := !s.isOn;
      s.(isOn := isOn, icon := IconFor(isOn))
    else
      s.(volume := v, labels := LabelsFor(v))
  }

  /** The messages taken off the channel one by one, in the order they were sent. */
  function DispatchAll(s: Control, msgs: seq<real>): Control
    decreases |msgs|
  {
    if msgs == [] then s else DispatchAll(Dispatch(s, msgs[0]), msgs[1..])
  }

  /** The volume the last volume message set, or `v0` when there is none. */
  function LastVolume(v0: real, msgs: seq<real>): real
  {
    if msgs == [] then v0
    else if msgs[|msgs| - 1] != Toggle then msgs[|msgs| - 1]
    else LastVolume(v0, msgs[..|msgs| - 1])
  }

  /** Label `k` is marked exactly when `v` is preset `k`; at most one is, exactly one for a preset. */
  lemma LabelsMarkPreset(v: real)
    ensures forall k :: 0 <= k < 3 ==> (IsMarked(LabelsFor(v)[k]) <==> v == Presets[k])
    ensures MarkedPositions(LabelsFor(v)) == set k: nat | k < 3 && Presets[k] == v
    ensures |MarkedPositions(LabelsFor(v))| <= 1
    ensures |MarkedPositions(LabelsFor(v))| == 1 <==> v in Presets
  {
    var ls := LabelsFor(v);
    assert IsMarked("10%  <") && IsMarked("25%  <") && IsMarked("100% <");
    assert !IsMarked("10%") && !IsMarked("25%") && !IsMarked("100%");
    var marked := MarkedPositions(ls);
    if v == 0.10 {
      assert marked == {0};
    } else if v == 0.25 {
      assert marked == {1};
    } else if v == 1.00 {
      assert marked == {2};
    } else {
      assert marked == {};
    }
  }

  /** The labels and icon shown at startup agree with the initial volume and flag. */
  lemma InitialReflects()
    ensures Reflects(Initial)
    ensures MarkedPositions(Initial.labels) == {1}
  {
    LabelsMarkPreset(0.25);
  }

  /** Every message keeps the tray in step with the playback state. */
  lemma DispatchReflects(s: Control, v: real)
    requires Reflects(s)
    ensures Reflects(Dispatch(s, v))
  {
  }

  /** However many messages arrive, the tray stays in step with the playback state. */
  lemma {:induction false} DispatchAllReflects(s: Control, msgs: seq<real>)
    requires Reflects(s)
    ensures Reflects(DispatchAll(s, msgs))
    decreases |msgs|
  {
    if msgs != [] {
      DispatchAllReflects(Dispatch(s, msgs[0]), msgs[1..]);
    }
  }

  /** Two toggles in a row restore the flag and, from a consistent state, the icon. */
  lemma ToggleTwice(s: Control)
    ensures var t := Dispatch(Dispatch(s, Toggle), Toggle);
      t.isOn == s.isOn && t.volume == s.volume && t.labels == s.labels && t.icon == IconFor(s.isOn)
    ensures Reflects(s) ==> Dispatch(Dispatch(s, Toggle), Toggle) == s
  {
  }

  /** A message appended to the channel is applied after all the earlier ones. */
  lemma {:induction false} DispatchAllAppend(s: Control, msgs: seq<real>, v: real)
    ensures DispatchAll(s, msgs + [v]) == Dispatch(DispatchAll(s, msgs), v)
    decreases |msgs|
  {
    if msgs == [] {
      assert [v][1..] == [];
    } else {
      assert (msgs + [v])[1..] == msgs[1..] + [v];
      DispatchAllAppend(Dispatch(s, msgs[0]), msgs[1..], v);
    }
  }

  /** The flag ends flipped exactly when an odd number of toggles arrived. */
  lemma {:induction false} DispatchAllIsOn(s: Control, msgs: seq<real>)
    ensures DispatchAll(s, msgs).isOn == (s.isOn != (multiset(msgs)[Toggle] % 2 == 1))
    decreases |msgs|
  {
    if msgs != [] {
      DispatchAllIsOn(Dispatch(s, msgs[0]), msgs[1..]);
      assert msgs == [msgs[0]] + msgs[1..];
      assert multiset(msgs) == multiset{msgs[0]} + multiset(msgs[1..]);
    }
  }

  /** No volume message is dropped or reordered: the last one sent is the volume in force. */
  lemma {:induction false} DispatchAllVolume(s: Control, msgs: seq<real>)
    ensures DispatchAll(s, msgs).volume == LastVolume(s.volume, msgs)
    decreases |msgs|
  {
    if msgs != [] {
      var init := msgs[..|msgs| - 1];
      var last := msgs[|msgs| - 1];
      assert msgs == init + [last];
      DispatchAllAppend(s, init, last);
      DispatchAllVolume(s, init);
    }
  }

  /** Choosing a volume item marks exactly that item's label; the On/Off item flips the flag. */
  lemma MenuItemEffect(s: Control, item: MenuItem)
    ensures item == OnOff ==>
      Dispatch(s, Message(item)).isOn == !s.isOn && Dispatch(s, Message(item)).volume == s.volume
    ensures item != OnOff ==>
      Position(item) < 3 && Message(item) == Presets[Position(item)] &&
      Dispatch(s, Message(item)).volume == Message(item) &&
      MarkedPositions(Dispatch(s, Message(item)).labels) == {Position(item)}
  {
    if item != OnOff {
      var v := Message(item);
      LabelsMarkPreset(v);
      var marked := MarkedPositions(LabelsFor(v));
      assert Position(item) in marked;
      assert |marked| == 1;
    }
  }

  /**
   * Messages are applied in order without coalescing: from startup, 10%, then
   * 100%, then On/Off leaves volume 1.00, playback off, the 100% label marked.
   */
  lemma OrderedExample()
    ensures DispatchAll(Initial, [0.10, 1.00, Toggle])
         == Control(false, 1.00, ["10%", "25%", "100% <"], IconOff)
  {
    var s1 := Dispatch(Initial, 0.10);
    var s2 := Dispatch(s1, 1.00);
    var s3 := Dispatch(s2, Toggle);
    assert [0.10, 1.00, Toggle][1..] == [1.00, Toggle];
    assert [1.00, Toggle][1..] == [Toggle];
    assert [Toggle][1..] == [];
    assert DispatchAll(s3, []) == s3;
    assert DispatchAll(s2, [Toggle]) == s3;
    assert DispatchAll(s1, [1.00, Toggle]) == s3;
    assert DispatchAll(Initial, [0.10, 1.00, Toggle]) == s3;
  }
}
