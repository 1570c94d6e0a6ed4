/**
 * The Windows low-level keyboard hook: which keystrokes go to the host, which stay, and
 * which keys the host believes pressed. Each callback and each mode switch is one step.
 */
module KeyboardHook {
  import opened Wire

  const VK_RETURN: nat := 0x0D
  const VK_ESCAPE: nat := 0x1B

  predicate IsModifier(vk: nat) {
    vk == 0x10 || vk == 0x11 || vk == 0x12 || vk == 0x14 || 0xA0 <= vk <= 0xA5
  }

  /** The scan code in the low byte and the extended flag in one u16; none for scan code 0. */
  function Compose(scan: nat, extended: bool): Option<nat> {
    var base := scan % 256;
    if base == 0 then None else Some(if extended then 0xE000 + base else base)
  }

  /** How the host reads it back. */
  function Unpack(scancode: nat): (nat, bool) {
    if 0xE000 <= scancode < 0xE100 then (scancode - 0xE000, true) else (scancode, false)
  }

  lemma HostReadsTheSameKey(scan: nat, extended: bool)
    ensures Compose(scan, extended) == None <==> scan % 256 == 0
    ensures Compose(scan, extended).Some? ==> Unpack(Compose(scan, extended).value) == (scan % 256, extended)
  {
  }

  datatype Kind = Press | Release | Other

  /** `mapped` is what `MapVirtualKeyW` answers, `ctrl` what `GetAsyncKeyState` does. */
  datatype Stroke = Stroke(code: int, kind: Kind, vk: nat, scan: nat, extended: bool, mapped: nat, ctrl: bool)

  datatype Key = KeyDown(scancode: nat) | KeyUp(scancode: nat)

  datatype TapEvent = ReleaseCapture | EngageCapture | ToggleFullscreen

  datatype State = State(
    enabled: bool, passive: bool, held: set<nat>, hotkeyDown: set<nat>, out: seq<Key>, events: seq<TapEvent>)

  const START := State(false, false, {}, {}, [], [])

  function Scancode(k: Stroke): Option<nat> {
    if Compose(k.scan, k.extended).Some? then Compose(k.scan, k.extended) else Compose(k.mapped, k.extended)
  }

  function Hotkey(k: Stroke, active: bool): Option<TapEvent> {
    if k.ctrl && k.vk == VK_RETURN then Some(ToggleFullscreen)
    else if k.ctrl && k.vk == VK_ESCAPE then Some(if active then ReleaseCapture else EngageCapture)
    else None
  }

  /** The hook's contract, and the messages it looks at. */
  predicate Heeded(k: Stroke) { k.code >= 0 && k.kind != Other }

  predicate TakenAsHotkey(s: State, k: Stroke) {
    Heeded(k) && k.kind == Press && (s.enabled || s.passive) && Hotkey(k, s.enabled).Some?
  }

  predicate EndsHotkey(s: State, k: Stroke) {
    Heeded(k) && k.kind == Release && k.vk in s.hotkeyDown
  }

  predicate GoesToHost(s: State, k: Stroke) {
    Heeded(k) && !TakenAsHotkey(s, k) && !EndsHotkey(s, k) && s.enabled && Scancode(k).Some?
  }

  function OnStroke(s: State, k: Stroke): State {
    if TakenAsHotkey(s, k) then
      s.(hotkeyDown := s.hotkeyDown + {k.vk}, events := s.events + [Hotkey(k, s.enabled).value])
    else if EndsHotkey(s, k) then s.(hotkeyDown := s.hotkeyDown - {k.vk})
    else if GoesToHost(s, k) then
      var sc := Scancode(k).value;
      if k.kind == Press then s.(held := s.held + {sc}, out := s.out + [KeyDown(sc)])
      else s.(held := s.held - {sc}, out := s.out + [KeyUp(sc)])
    else s
  }

  /** Whether the local desktop is kept from seeing the stroke. */
  function Swallowed(s: State, k: Stroke): bool {
    && Heeded(k)
    && (TakenAsHotkey(s, k) || EndsHotkey(s, k) || (s.enabled && (Scancode(k) == None || !IsModifier(k.vk))))
  }

  // ----- Letting go of what is held

  predicate IsLeast(keys: set<nat>, x: nat) {
    x in keys && forall y :: y in keys ==> x <= y
  }

  lemma HasLeast(keys: set<nat>) returns (least: nat)
    requires keys != {}
    ensures IsLeast(keys, least)
  {
    var x :| x in keys;
    var rest := keys - {x};
    least := x;
    if rest != {} {
      var other := HasLeast(rest);
      if other < x { least := other; }
    }
    assert forall y :: y in keys ==> y == x || y in rest;
  }

  lemma SomeLeast(keys: set<nat>)
    requires keys != {}
    ensures exists x :: IsLeast(keys, x)
  {
    var least := HasLeast(keys);
  }

  /** A key-up for every key of a set, in ascending order. */
  ghost function Ups(keys: set<nat>): seq<Key> {
    if keys == {} then []
    else
      SomeLeast(keys);
      var least :| IsLeast(keys, least);
      [KeyUp(least)] + Ups(keys - {least})
  }

  lemma UpsFrom(keys: set<nat>, least: nat)
    requires IsLeast(keys, least)
    ensures Ups(keys) == [KeyUp(least)] + Ups(keys - {least})
  {
  }

  ghost function Off(s: State): State {
    s.(enabled := false, passive := false, held := {}, out := s.out + Ups(s.held))
  }

  ghost function Passive(s: State): State {
    (if s.enabled then Off(s) else s).(enabled := false, passive := true)
  }

  class Hook {
    var enabled: bool
    var passive: bool
    var held: set<nat>
    var hotkeyDown: set<nat>
    var out: seq<Key>
    var events: seq<TapEvent>

    ghost function Now(): State reads this {
      State(enabled, passive, held, hotkeyDown, out, events)
    }

    constructor ()
      ensures Now() == START
    {
      enabled, passive, held, hotkeyDown, out, events := false, false, {}, {}, [], [];
    }

    method HookProc(k: Stroke) returns (handled: bool)
      modifies this
      ensures Now() == OnStroke(old(Now()), k)
      ensures handled == Swallowed(old(Now()), k)
    {
      if k.code < 0 { return false; }
      var isDown, isUp := k.kind == Press, k.kind == Release;
      if !isDown && !isUp { return false; }
      var active := enabled;
      if isUp {
        if k.vk in hotkeyDown {
          hotkeyDown := hotkeyDown - {k.vk};
          return true;
        }
      }
      if (active || passive) && isDown {
        var hotkey := Hotkey(k, active);
        if hotkey.Some? {
          hotkeyDown := hotkeyDown + {k.vk};
          events := events + [hotkey.value];
          return true;
        }
      }
      if !active { return false; }
      var scancode := Compose(k.scan, k.extended);
      if scancode == None { scancode := Compose(k.mapped, k.extended); }
      if scancode == None { return true; }
      if isDown { held := held + {scancode.value}; } else { held := held - {scancode.value}; }
      out := out + [if isDown then KeyDown(scancode.value) else KeyUp(scancode.value)];
      return !IsModifier(k.vk);
    }

    method ReleaseHeldKeys()
      modifies this
      ensures Now() == old(Now()).(held := {}, out := old(out) + Ups(old(held)))
    {
      var released := held;
      held := {};
      while released != {}
        invariant held == {} && enabled == old(enabled) && passive == old(passive)
        invariant hotkeyDown == old(hotkeyDown) && events == old(events)
        invariant out + Ups(released) == old(out) + Ups(old(held))
      {
        SomeLeast(released);
        var least :| IsLeast(released, least);
        UpsFrom(released, least);
        out := out + [KeyUp(least)];
        released := released - {least};
      }
    }

    method Enable()
      modifies this
      ensures Now() == old(Now()).(enabled := true, passive := false)
    {
      passive := false;
      enabled := true;
    }

    method Disable()
      modifies this
      ensures Now() == Off(old(Now()))
    {
      enabled := false;
      passive := false;
      ReleaseHeldKeys();
    }

    method EnablePassive()
      modifies this
      ensures Now() == Passive(old(Now()))
    {
      if enabled { Disable(); }
      enabled := false;
      passive := true;
    }
  }

  // ----- Runs

  datatype Action = Callback(stroke: Stroke) | Enable | EnablePassive | Disable

  ghost function Do(s: State, a: Action): State {
    match a
    case Callback(k) => OnStroke(s, k)
    case Enable => s.(enabled := true, passive := false)
    case EnablePassive => Passive(s)
    case Disable => Off(s)
  }

  ghost function Run(actions: seq<Action>): State {
    if actions == [] then START
    else Do(Run(actions[..|actions| - 1]), actions[|actions| - 1])
  }

  lemma RunSnoc(actions: seq<Action>, a: Action)
    ensures Run(actions + [a]) == Do(Run(actions), a)
  {
    assert (actions + [a])[..|actions|] == actions;
  }

  /** The keys the host believes pressed once it has read the queue. */
  function Believed(out: seq<Key>): set<nat> {
    if out == [] then {} else After(Believed(out[..|out| - 1]), out[|out| - 1])
  }

  function After(pressed: set<nat>, key: Key): set<nat> {
    if key.KeyDown? then pressed + {key.scancode} else pressed - {key.scancode}
  }

  lemma BelievedSnoc(out: seq<Key>, key: Key)
    ensures Believed(out + [key]) == After(Believed(out), key)
  {
    assert (out + [key])[..|out|] == out;
  }

  lemma {:induction false} BelievedAfterUps(out: seq<Key>, keys: set<nat>)
    ensures Believed(out + Ups(keys)) == Believed(out) - keys
    decreases keys
  {
    if keys == {} {
      assert out + Ups(keys) == out;
    } else {
      SomeLeast(keys);
      var least :| IsLeast(keys, least);
      UpsFrom(keys, least);
      assert out + Ups(keys) == (out + [KeyUp(least)]) + Ups(keys - {least});
      BelievedSnoc(out, KeyUp(least));
      BelievedAfterUps(out + [KeyUp(least)], keys - {least});
    }
  }

  ghost predicate Mirrors(s: State) {
    Believed(s.out) == s.held && (!s.enabled ==> s.held == {}) && !(s.enabled && s.passive)
  }

  lemma MirrorKept(s: State, a: Action)
    requires Mirrors(s)
    ensures Mirrors(Do(s, a))
    ensures a.Disable? || a.EnablePassive? ==> Believed(Do(s, a).out) == {}
  {
    BelievedAfterUps(s.out, s.held);
    if a.Callback? && GoesToHost(s, a.stroke) {
      var sc := Scancode(a.stroke).value;
      BelievedSnoc(s.out, if a.stroke.kind == Press then KeyDown(sc) else KeyUp(sc));
    }
  }

  /**
   * In every run of strokes and mode switches the set kept is what the host believes
   * pressed, and with capture off the host believes nothing pressed.
   */
  lemma {:induction false} HeldMirrorsTheHost(actions: seq<Action>)
    ensures Believed(Run(actions).out) == Run(actions).held
    ensures !Run(actions).enabled ==> Believed(Run(actions).out) == {}
    ensures Mirrors(Run(actions))
  {
    if actions != [] {
      HeldMirrorsTheHost(actions[..|actions| - 1]);
      MirrorKept(Run(actions[..|actions| - 1]), actions[|actions| - 1]);
    }
  }

  /** Switching capture off leaves no key pressed on the host. */
  lemma NothingStaysAfterSwitchingOff(actions: seq<Action>, a: Action)
    requires a.Disable? || a.EnablePassive?
    ensures Believed(Run(actions + [a]).out) == {}
  {
    HeldMirrorsTheHost(actions);
    MirrorKept(Run(actions), a);
    RunSnoc(actions, a);
  }

  // ----- Hotkeys

  /** Capture is on: the latest switch turned it on. */
  function Capturing(actions: seq<Action>): bool {
    actions != [] &&
    match actions[|actions| - 1]
    case Callback(_) => Capturing(actions[..|actions| - 1])
    case Enable => true
    case EnablePassive => false
    case Disable => false
  }

  /** The hook only listens for hotkeys: the latest switch said so. */
  function Listening(actions: seq<Action>): bool {
    actions != [] &&
    match actions[|actions| - 1]
    case Callback(_) => Listening(actions[..|actions| - 1])
    case Enable => false
    case EnablePassive => true
    case Disable => false
  }

  lemma {:induction false} ModesFollow(actions: seq<Action>)
    ensures Run(actions).enabled == Capturing(actions) && Run(actions).passive == Listening(actions)
  {
    if actions != [] {
      hide Ups;
      ModesFollow(actions[..|actions| - 1]);
    }
  }

  /** Ctrl+Enter and Ctrl+Escape going down while the hook looks for them. */
  predicate IsCombo(actions: seq<Action>, k: Stroke) {
    && k.code >= 0 && k.kind == Press && k.ctrl && (k.vk == 0x0D || k.vk == 0x1B)
    && (Capturing(actions) || Listening(actions))
  }

  lemma ComboIff(actions: seq<Action>, k: Stroke)
    ensures TakenAsHotkey(Run(actions), k) <==> IsCombo(actions, k)
  {
    ModesFollow(actions);
    hide Run, Capturing, Listening;
  }

  /** Some press of the key since its last release was taken as a hotkey. */
  ghost function PressedAsHotkey(actions: seq<Action>, vk: nat): bool {
    actions != [] &&
    var front, a := actions[..|actions| - 1], actions[|actions| - 1];
    if a.Callback? && Heeded(a.stroke) && a.stroke.vk == vk then
      if a.stroke.kind == Release then false
      else IsCombo(front, a.stroke) || PressedAsHotkey(front, vk)
    else PressedAsHotkey(front, vk)
  }

  lemma {:induction false} HotkeyDownIff(actions: seq<Action>, vk: nat)
    ensures vk in Run(actions).hotkeyDown <==> PressedAsHotkey(actions, vk)
  {
    if actions != [] {
      var front, a := actions[..|actions| - 1], actions[|actions| - 1];
      HotkeyDownIff(front, vk);
      if a.Callback? { ComboIff(front, a.stroke); }
      hide IsCombo, Hotkey, Ups;
    }
  }

  /**
   * With capture on, a release leaves the host believing the key pressed exactly if the
   * host did before and a press of the key since its last release was taken as a hotkey.
   */
  lemma StaysPressedIff(actions: seq<Action>, k: Stroke)
    requires Heeded(k) && k.kind == Release && Run(actions).enabled && Scancode(k).Some?
    ensures Scancode(k).value in Believed(Run(actions + [Callback(k)]).out)
            <==> Scancode(k).value in Believed(Run(actions).out) && PressedAsHotkey(actions, k.vk)
  {
    RunSnoc(actions, Callback(k));
    HeldMirrorsTheHost(actions);
    HeldMirrorsTheHost(actions + [Callback(k)]);
    HotkeyDownIff(actions, k.vk);
  }

  // ----- Where a stroke goes

  datatype Fate =
    | Unheeded   // not the hook's business
    | Combo      // taken as a hotkey
    | ComboOver  // the release of a key taken as a hotkey
    | Local      // capture is off
    | Lost       // captured, but without a scan code to send
    | ToHost(code: nat)

  /** Told from the strokes and switches so far. */
  ghost function FateOf(actions: seq<Action>, k: Stroke): Fate {
    if k.code < 0 || k.kind == Other then Unheeded
    else if IsCombo(actions, k) then Combo
    else if k.kind == Release && PressedAsHotkey(actions, k.vk) then ComboOver
    else if !Capturing(actions) then Local
    else
      var base := if k.scan % 256 != 0 then k.scan % 256 else k.mapped % 256;
      if base == 0 then Lost else ToHost(if k.extended then 0xE000 + base else base)
  }

  /**
   * Every stroke has one fate: it goes to the host under its scan code, or is a hotkey and
   * raises its event, or stays. The local desktop is kept from all but what stays, what is
   * none of the hook's business, and the modifiers, which both sides get.
   */
  lemma StrokeHasItsFate(actions: seq<Action>, k: Stroke)
    ensures var s, t := Run(actions), Do(Run(actions), Callback(k));
            var fate := FateOf(actions, k);
            && t.out == s.out + (if !fate.ToHost? then []
                                 else [if k.kind == Press then KeyDown(fate.code) else KeyUp(fate.code)])
            && t.events == s.events + (if fate != Combo then []
                                       else [if k.vk == 0x0D then ToggleFullscreen
                                             else if Capturing(actions) then ReleaseCapture else EngageCapture])
            && (Swallowed(s, k)
                <==> || fate == Combo || fate == ComboOver || fate == Lost
                     || (fate.ToHost? && k.vk !in {0x10, 0x11, 0x12, 0x14, 0xA0, 0xA1, 0xA2, 0xA3, 0xA4, 0xA5}))
  {
    ModesFollow(actions);
    ComboIff(actions, k);
    HotkeyDownIff(actions, k.vk);
    var s := Run(actions);
    hide Run, Capturing, Listening, IsCombo, PressedAsHotkey;
    assert s.out + [] == s.out && s.events + [] == s.events;
  }

  /** The scan codes whose last heeded stroke was a press. */
  function Pressed(actions: seq<Action>): set<nat> {
    if actions == [] then {} else PressedAfter(Pressed(actions[..|actions| - 1]), actions[|actions| - 1])
  }

  function PressedAfter(before: set<nat>, a: Action): set<nat> {
    if !a.Callback? || !Heeded(a.stroke) || Scancode(a.stroke) == None then before
    else if a.stroke.kind == Press then before + {Scancode(a.stroke).value}
    else before - {Scancode(a.stroke).value}
  }

  lemma PressedSnoc(actions: seq<Action>, a: Action)
    ensures Pressed(actions + [a]) == PressedAfter(Pressed(actions), a)
  {
    assert (actions + [a])[..|actions|] == actions;
  }

  /**
   * The latest heeded stroke of the key was a release under capture, of a key that the host
   * believed pressed, after a press of the same virtual key had been taken as a hotkey; and
   * capture has not been switched off since.
   */
  ghost predicate Stuck(actions: seq<Action>, sc: nat) {
    actions != [] &&
    var front, a := actions[..|actions| - 1], actions[|actions| - 1];
    match a
    case Callback(k) =>
      if Heeded(k) && Scancode(k) == Some(sc)
      then k.kind == Release && Run(front).enabled && sc in Believed(Run(front).out) && PressedAsHotkey(front, k.vk)
      else Stuck(front, sc)
    case Enable => Stuck(front, sc)
    case EnablePassive => !Run(front).enabled && Stuck(front, sc)
    case Disable => false
  }

  /** In every run, these and no others are the keys that the host believes pressed and that are not. */
  lemma {:induction false} StuckIff(actions: seq<Action>, sc: nat)
    ensures sc in Believed(Run(actions).out) && sc !in Pressed(actions) <==> Stuck(actions, sc)
  {
    if actions != [] {
      var front, a := actions[..|actions| - 1], actions[|actions| - 1];
      HeldMirrorsTheHost(front);
      HeldMirrorsTheHost(actions);
      StuckIff(front, sc);
      hide Believed, PressedAsHotkey, Stuck;
      StuckStep(front, a, sc);
      assert front + [a] == actions;
    }
  }

  lemma StuckStep(front: seq<Action>, a: Action, sc: nat)
    requires sc in Run(front).held && sc !in Pressed(front) <==> Stuck(front, sc)
    requires Mirrors(Run(front))
    ensures sc in Do(Run(front), a).held && sc !in PressedAfter(Pressed(front), a) <==> Stuck(front + [a], sc)
  {
    assert (front + [a])[..|front|] == front;
    hide Ups, Compose, Hotkey;
    if a.Callback? {
      HotkeyDownIff(front, a.stroke.vk);
      HotkeysAreHot(Run(front), a.stroke);
    }
    hide Run, Believed, PressedAsHotkey, TakenAsHotkey, Scancode;
  }

  predicate IsHot(vk: nat) { vk == VK_RETURN || vk == VK_ESCAPE }

  /**
   * A scan code always comes with the same hotkey key, or never with one: `vkOf` need not
   * know the other keys, which may change with NumLock. Several scan codes may share a key.
   */
  ghost predicate FixedHotkeys(actions: seq<Action>, vkOf: nat -> nat) {
    forall i :: 0 <= i < |actions| && actions[i].Callback? && Heeded(actions[i].stroke)
                && Scancode(actions[i].stroke).Some? ==>
      FixedHotkey(actions[i].stroke, vkOf)
  }

  predicate FixedHotkey(k: Stroke, vkOf: nat -> nat)
    requires Scancode(k).Some?
  {
    var vk := vkOf(Scancode(k).value);
    IsHot(k.vk) || IsHot(vk) ==> vk == k.vk
  }

  /**
   * No virtual key is both forwarded, under any of its scan codes, and taken as a hotkey
   * between a press and its release.
   */
  ghost predicate NeverBoth(actions: seq<Action>, vkOf: nat -> nat) {
    actions == [] ||
    var front, a := actions[..|actions| - 1], actions[|actions| - 1];
    && NeverBoth(front, vkOf)
    && (a.Callback? && TakenAsHotkey(Run(front), a.stroke) ==> NotHeld(Run(front), a.stroke.vk, vkOf))
    && (a.Callback? && GoesToHost(Run(front), a.stroke) && a.stroke.kind == Press ==>
          a.stroke.vk !in Run(front).hotkeyDown)
  }

  ghost predicate NotHeld(s: State, vk: nat, vkOf: nat -> nat) {
    forall sc: nat :: sc in s.held ==> vkOf(sc) != vk
  }

  ghost predicate Clean(s: State, pressed: set<nat>, vkOf: nat -> nat) {
    && s.held <= pressed
    && forall vk: nat :: vk in s.hotkeyDown ==> IsHot(vk) && NotHeld(s, vk, vkOf)
  }

  lemma StrokeKeepsClean(s: State, k: Stroke, pressed: set<nat>, vkOf: nat -> nat)
    requires Clean(s, pressed, vkOf) && (!s.enabled ==> s.held == {})
    requires Heeded(k) && Scancode(k).Some? ==> FixedHotkey(k, vkOf)
    requires TakenAsHotkey(s, k) ==> NotHeld(s, k.vk, vkOf)
    requires GoesToHost(s, k) && k.kind == Press ==> k.vk !in s.hotkeyDown
    ensures Clean(OnStroke(s, k), PressedAfter(pressed, Callback(k)), vkOf)
  {
    hide Compose, Hotkey;
    assert TakenAsHotkey(s, k) ==> IsHot(k.vk) by { HotkeysAreHot(s, k); }
    hide TakenAsHotkey, Scancode;
  }

  lemma HotkeysAreHot(s: State, k: Stroke)
    ensures TakenAsHotkey(s, k) ==> IsHot(k.vk) && k.kind == Press && Heeded(k)
  {
  }

  lemma SwitchKeepsClean(s: State, a: Action, pressed: set<nat>, vkOf: nat -> nat)
    requires Clean(s, pressed, vkOf) && !a.Callback?
    ensures Clean(Do(s, a), PressedAfter(pressed, a), vkOf)
  {
    hide Ups;
  }

  /** Then the host never believes a key pressed that is not. */
  lemma {:induction false} NoKeySticks(actions: seq<Action>, vkOf: nat -> nat)
    requires FixedHotkeys(actions, vkOf) && NeverBoth(actions, vkOf)
    ensures Believed(Run(actions).out) <= Pressed(actions)
    ensures Clean(Run(actions), Pressed(actions), vkOf)
  {
    HeldMirrorsTheHost(actions);
    if actions != [] {
      var front, a := actions[..|actions| - 1], actions[|actions| - 1];
      assert FixedHotkeys(front, vkOf) && actions[|actions| - 1] == a;
      hide OnStroke, Clean, PressedAfter, TakenAsHotkey, GoesToHost, FixedHotkey, NotHeld, Believed, Off, Passive;
      HeldMirrorsTheHost(front);
      NoKeySticks(front, vkOf);
      if a.Callback? {
        StrokeKeepsClean(Run(front), a.stroke, Pressed(front), vkOf);
      } else {
        SwitchKeepsClean(Run(front), a, Pressed(front), vkOf);
      }
      HeldIsPressed(Run(actions), Pressed(actions), vkOf);
    }
  }

  lemma HeldIsPressed(s: State, pressed: set<nat>, vkOf: nat -> nat)
    requires Clean(s, pressed, vkOf)
    ensures s.held <= pressed
  {
  }

  const ENTER_DOWN := Callback(Stroke(0, Press, VK_RETURN, 28, false, 28, false))
  const CTRL_ENTER_DOWN := Callback(Stroke(0, Press, VK_RETURN, 28, false, 28, true))
  const ENTER_UP := Callback(Stroke(0, Release, VK_RETURN, 28, false, 28, false))
  const CTRL_DOWN := Callback(Stroke(0, Press, 0x11, 29, false, 29, true))
  const NUMPAD_CTRL_ENTER_DOWN := Callback(Stroke(0, Press, VK_RETURN, 28, true, 28, true))
  const NUMPAD_ENTER_UP := Callback(Stroke(0, Release, VK_RETURN, 28, true, 28, true))
  const CTRL_UP := Callback(Stroke(0, Release, 0x11, 29, false, 29, false))

  lemma StartsEmpty()
    ensures Run([]) == START && Pressed([]) == {}
  {
  }

  lemma Next(actions: seq<Action>, a: Action) returns (next: seq<Action>)
    ensures Run(next) == Do(Run(actions), a)
    ensures Pressed(next) == PressedAfter(Pressed(actions), a)
  {
    next := actions + [a];
    RunSnoc(actions, a);
    PressedSnoc(actions, a);
  }

  /**
   * Enter held, then Ctrl and the numpad's Enter: the second Enter is taken as the hotkey,
   * and the release of the first, which shares its virtual key, is swallowed in its place.
   * With every key up again the host has Enter pressed.
   */
  lemma EnterSticksBesideNumpad() returns (actions: seq<Action>)
    ensures Run(actions).enabled && Pressed(actions) == {} && Believed(Run(actions).out) == {28}
  {
    hide Believed, Pressed, Run;
    StartsEmpty();
    actions := Next([], Enable);
    actions := Next(actions, ENTER_DOWN);
    assert Run(actions).held == {28} && Run(actions).hotkeyDown == {} && Run(actions).enabled;
    actions := Next(actions, CTRL_DOWN);
    actions := Next(actions, NUMPAD_CTRL_ENTER_DOWN);
    assert Run(actions).held == {28, 29} && Run(actions).hotkeyDown == {VK_RETURN} && Run(actions).enabled;
    assert Pressed(actions) == {28, 29, 0xE000 + 28};
    actions := Next(actions, ENTER_UP);
    actions := Next(actions, NUMPAD_ENTER_UP);
    assert Run(actions).held == {28, 29} && Run(actions).hotkeyDown == {} && Run(actions).enabled;
    actions := Next(actions, CTRL_UP);
    HeldMirrorsTheHost(actions);
  }

  /**
   * Ctrl going down while Enter repeats turns the repeat into a hotkey, which swallows
   * the release of the Enter the host saw go down: no key is pressed, the host has Enter.
   * One keyboard repeats only the key pressed last, so this takes a second keyboard or
   * injected input.
   */
  lemma EnterSticksUnderCtrl() returns (actions: seq<Action>)
    ensures Run(actions).enabled && Pressed(actions) == {} && Believed(Run(actions).out) == {28}
  {
    hide Believed, Pressed, Run;
    StartsEmpty();
    actions := Next([], Enable);
    actions := Next(actions, ENTER_DOWN);
    assert Run(actions).held == {28} && Run(actions).hotkeyDown == {} && Run(actions).enabled;
    actions := Next(actions, CTRL_DOWN);
    actions := Next(actions, CTRL_ENTER_DOWN);
    assert Run(actions).held == {28, 29} && Run(actions).hotkeyDown == {VK_RETURN} && Run(actions).enabled;
    actions := Next(actions, ENTER_UP);
    actions := Next(actions, CTRL_UP);
    HeldMirrorsTheHost(actions);
  }

  /** So does letting go of Ctrl first after Ctrl+Enter: the repeat is forwarded, its release not. */
  lemma EnterSticksAfterCtrl() returns (actions: seq<Action>)
    ensures Run(actions).enabled && Pressed(actions) == {} && Believed(Run(actions).out) == {28}
  {
    hide Believed, Pressed, Run;
    StartsEmpty();
    actions := Next([], Enable);
    actions := Next(actions, CTRL_DOWN);
    actions := Next(actions, CTRL_ENTER_DOWN);
    assert Run(actions).held == {29} && Run(actions).hotkeyDown == {VK_RETURN} && Run(actions).enabled;
    actions := Next(actions, CTRL_UP);
    actions := Next(actions, ENTER_DOWN);
    assert Run(actions).held == {28} && Run(actions).hotkeyDown == {VK_RETURN} && Run(actions).enabled;
    actions := Next(actions, ENTER_UP);
    HeldMirrorsTheHost(actions);
  }
}
