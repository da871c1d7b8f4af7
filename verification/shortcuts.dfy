/** Keyboard shortcuts: the table of actions with their default keys, the
    bindings kept in the preferences store, matching a key event against the
    bindings, and the key-down / key-up / long-press tracking state machine.
    Kotlin `Int` values (key codes, meta states) are 32-bit words. */
module Shortcuts {
  import opened Strings

  // Android constants used by the shortcut engine.
  const ACTION_DOWN: int := 0
  const ACTION_UP: int := 1
  const KEYCODE_BACK: bv32 := 4
  const KEYCODE_DPAD_CENTER: bv32 := 23
  const KEYCODE_MENU: bv32 := 82
  const KEYCODE_SEARCH: bv32 := 84
  const KEYCODE_MEDIA_PLAY_PAUSE: bv32 := 85
  const KEYCODE_MEDIA_STOP: bv32 := 86
  const KEYCODE_MEDIA_REWIND: bv32 := 89
  const KEYCODE_MEDIA_FAST_FORWARD: bv32 := 90
  const KEYCODE_REFRESH: bv32 := 285
  const META_SHIFT_ON: bv32 := 0x01
  const META_ALT_ON: bv32 := 0x02
  const META_CTRL_ON: bv32 := 0x1000
  /** The only modifier bits a shortcut is matched on. */
  const MODIFIER_MASK: bv32 := 0x1003

  /** The actions a key can be bound to, in declaration order. */
  datatype Shortcut =
    | Menu | NavigateBack | NavigateHome | RefreshPage | VoiceSearch
    | PlayPause | MediaStop | MediaRewind | MediaFastForward

  /** `Shortcut.entries`. */
  const AllShortcuts: seq<Shortcut> :=
    [Menu, NavigateBack, NavigateHome, RefreshPage, VoiceSearch,
     PlayPause, MediaStop, MediaRewind, MediaFastForward]

  /** Position of a shortcut in declaration order. */
  function Ordinal(s: Shortcut): (k: nat)
    ensures k < |AllShortcuts| && AllShortcuts[k] == s
  {
    match s
    case Menu => 0
    case NavigateBack => 1
    case NavigateHome => 2
    case RefreshPage => 3
    case VoiceSearch => 4
    case PlayPause => 5
    case MediaStop => 6
    case MediaRewind => 7
    case MediaFastForward => 8
  }

  function PrefsKey(s: Shortcut): string {
    match s
    case Menu => "shortcut_menu"
    case NavigateBack => "shortcut_nav_back"
    case NavigateHome => "shortcut_nav_home"
    case RefreshPage => "shortcut_refresh_page"
    case VoiceSearch => "shortcut_voice_search"
    case PlayPause => "shortcut_play_pause"
    case MediaStop => "shortcut_media_stop"
    case MediaRewind => "shortcut_media_rewind"
    case MediaFastForward => "shortcut_media_fast_forward"
  }

  function ModifiersKey(s: Shortcut): string { PrefsKey(s) + "_mod" }

  function LongPressKey(s: Shortcut): string { PrefsKey(s) + "_lp" }

  /** Default key of each action; the two navigation actions start unassigned. */
  function DefaultKeyCode(s: Shortcut): (k: bv32)
    ensures k == 0 <==> s == NavigateBack || s == NavigateHome
  {
    match s
    case Menu => KEYCODE_MENU
    case NavigateBack => 0
    case NavigateHome => 0
    case RefreshPage => KEYCODE_REFRESH
    case VoiceSearch => KEYCODE_SEARCH
    case PlayPause => KEYCODE_MEDIA_PLAY_PAUSE
    case MediaStop => KEYCODE_MEDIA_STOP
    case MediaRewind => KEYCODE_MEDIA_REWIND
    case MediaFastForward => KEYCODE_MEDIA_FAST_FORWARD
  }

  datatype Binding = Binding(keyCode: bv32, modifiers: bv32, longPress: bool)

  /** The binding an action has when nothing is stored for it: its default key,
      no modifiers, short press. */
  function DefaultBinding(s: Shortcut): (b: Binding)
    ensures b.keyCode == DefaultKeyCode(s) && b.modifiers == 0 && !b.longPress
  {
    Binding(DefaultKeyCode(s), 0, false)
  }

  /** The cleared binding: no key. */
  const Unassigned := Binding(0, 0, false)

  /** Enough of a preference key to tell the actions' keys apart: its
      length, its first character after "shortcut_" and the fifth one. */
  function KeyFingerprint(k: string): (int, char, char) {
    (|k|, if |k| > 9 then k[9] else ' ', if |k| > 13 then k[13] else ' ')
  }

  /** The fingerprint of each action's key. */
  function FingerprintOf(s: Shortcut): (int, char, char) {
    match s
    case Menu => (13, 'm', ' ')
    case NavigateBack => (17, 'n', 'b')
    case NavigateHome => (17, 'n', 'h')
    case RefreshPage => (21, 'r', 'e')
    case VoiceSearch => (21, 'v', 'e')
    case PlayPause => (19, 'p', '_')
    case MediaStop => (19, 'm', 'a')
    case MediaRewind => (21, 'm', 'a')
    case MediaFastForward => (27, 'm', 'a')
  }

  /** Every action's key is "shortcut_" and at least four more characters,
      the fourth from the end not being "_", and has the action's
      fingerprint. */
  lemma PrefsKeyShape(s: Shortcut)
    ensures |PrefsKey(s)| >= 13 && PrefsKey(s)[|PrefsKey(s)| - 4] != '_'
    ensures KeyFingerprint(PrefsKey(s)) == FingerprintOf(s)
  {
  }

  /** Different actions have different fingerprints. */
  lemma FingerprintsDistinct(s: Shortcut, t: Shortcut)
    requires s != t
    ensures FingerprintOf(s) != FingerprintOf(t)
  {
  }

  /** No two preference keys of different actions coincide, and no action's
      key coincides with another's modifiers key. */
  lemma KeysDistinct(s: Shortcut, t: Shortcut)
    requires s != t
    ensures PrefsKey(s) != PrefsKey(t) && ModifiersKey(s) != ModifiersKey(t)
    ensures LongPressKey(s) != LongPressKey(t)
    ensures PrefsKey(s) != ModifiersKey(t)
  {
    PrefsKeyShape(s);
    PrefsKeyShape(t);
    FingerprintsDistinct(s, t);
    var ks, kt := PrefsKey(s), PrefsKey(t);
    assert ModifiersKey(s)[..|ks|] == ks;
    assert ModifiersKey(t)[..|kt|] == kt;
    assert LongPressKey(s)[..|ks|] == ks;
    assert LongPressKey(t)[..|kt|] == kt;
    var m := ModifiersKey(t);
    if |ks| == |m| {
      assert m[|m| - 4] == '_';
    }
  }

  /** The typed preference store: integers and booleans by key. */
  datatype Prefs = Prefs(ints: map<string, bv32>, bools: map<string, bool>)

  function GetInt(p: Prefs, key: string, default: bv32): bv32 {
    if key in p.ints then p.ints[key] else default
  }

  function GetBool(p: Prefs, key: string, default: bool): bool {
    if key in p.bools then p.bools[key] else default
  }

  /** The binding loading finds for one action: each stored field, or the
      default for a field not stored. */
  function StoredBinding(p: Prefs, s: Shortcut): (b: Binding)
    ensures PrefsKey(s) !in p.ints ==> b.keyCode == DefaultKeyCode(s)
    ensures ModifiersKey(s) !in p.ints ==> b.modifiers == 0
    ensures LongPressKey(s) !in p.bools ==> !b.longPress
    ensures PrefsKey(s) in p.ints ==> b.keyCode == p.ints[PrefsKey(s)]
  {
    Binding(GetInt(p, PrefsKey(s), DefaultKeyCode(s)),
            GetInt(p, ModifiersKey(s), 0),
            GetBool(p, LongPressKey(s), false))
  }

  /** On an empty store every action has its default binding. */
  lemma EmptyPrefsGiveDefaults(s: Shortcut)
    ensures StoredBinding(Prefs(map[], map[]), s) == DefaultBinding(s)
  {
  }

  /** `loadAllBindings`: one entry per action, read from the store. */
  method LoadAllBindings(p: Prefs) returns (m: map<Shortcut, Binding>)
    ensures forall s :: s in m && m[s] == StoredBinding(p, s)
  {
    m := map[];
    for i := 0 to |AllShortcuts|
      invariant forall s :: s in m <==> Ordinal(s) < i
      invariant forall s :: s in m ==> m[s] == StoredBinding(p, s)
    {
      var s := AllShortcuts[i];
      assert Ordinal(s) == i;
      m := m[s := StoredBinding(p, s)];
    }
  }

  /** The binding that `updateBinding(s, keyCode, modifiers, longPress)`
      installs: key code 0 unassigns, whatever the other arguments say. */
  function NewBinding(keyCode: bv32, modifiers: bv32, longPress: bool): (b: Binding)
    ensures keyCode == 0 ==> b == Unassigned
    ensures keyCode != 0 ==> b.keyCode == keyCode && b.modifiers == modifiers && b.longPress == longPress
  {
    if keyCode == 0 then Unassigned else Binding(keyCode, modifiers, longPress)
  }

  /** The store after `updateBinding` AS WRITTEN: unassigning removes the
      three keys instead of storing the cleared binding. */
  function PrefsAfterUpdateAsWritten(p: Prefs, s: Shortcut, keyCode: bv32, modifiers: bv32, longPress: bool): (r: Prefs)
    ensures keyCode != 0 ==> r == PrefsAfterUpdate(p, s, keyCode, modifiers, longPress)
    ensures keyCode == 0 ==> StoredBinding(r, s) == DefaultBinding(s)
  {
    if keyCode == 0 then
      Prefs(p.ints - {PrefsKey(s), ModifiersKey(s)}, p.bools - {LongPressKey(s)})
    else
      Prefs(p.ints[PrefsKey(s) := keyCode][ModifiersKey(s) := modifiers], p.bools[LongPressKey(s) := longPress])
  }

  /** As written, clearing the menu shortcut does not survive a restart: the
      running map holds the cleared binding, but loading the store again
      brings back the MENU key, so the shortcut fires again. */
  lemma ClearedShortcutRevivesAfterRestart(p: Prefs)
    ensures var p2 := PrefsAfterUpdateAsWritten(p, Menu, 0, 0, false);
            StoredBinding(p2, Menu) == Binding(KEYCODE_MENU, 0, false)
            && StoredBinding(p2, Menu) != NewBinding(0, 0, false)
  {
  }

  /** The store after `updateBinding` as intended: the installed binding is
      persisted in every case, so that loading gives it back. */
  function PrefsAfterUpdate(p: Prefs, s: Shortcut, keyCode: bv32, modifiers: bv32, longPress: bool): (r: Prefs)
    ensures StoredBinding(r, s) == NewBinding(keyCode, modifiers, longPress)
  {
    var b := NewBinding(keyCode, modifiers, longPress);
    Prefs(p.ints[PrefsKey(s) := b.keyCode][ModifiersKey(s) := b.modifiers], p.bools[LongPressKey(s) := b.longPress])
  }

  /** An update persists the new binding of its action and no other: a
      restart loads exactly the bindings the running map holds. */
  lemma {:induction false} UpdateSurvivesRestart(p: Prefs, s: Shortcut, keyCode: bv32, modifiers: bv32, longPress: bool, t: Shortcut)
    ensures StoredBinding(PrefsAfterUpdate(p, s, keyCode, modifiers, longPress), t)
            == if t == s then NewBinding(keyCode, modifiers, longPress) else StoredBinding(p, t)
  {
    if t != s {
      UpdateKeepsOther(p, s, NewBinding(keyCode, modifiers, longPress), t);
    }
  }

  lemma UpdateKeepsOther(p: Prefs, s: Shortcut, b: Binding, t: Shortcut)
    requires t != s
    ensures StoredBinding(Prefs(p.ints[PrefsKey(s) := b.keyCode][ModifiersKey(s) := b.modifiers], p.bools[LongPressKey(s) := b.longPress]), t)
            == StoredBinding(p, t)
  {
    KeysDistinct(t, s);
    KeysDistinct(s, t);
    OtherKeysUntouched(p, PrefsKey(s), ModifiersKey(s), LongPressKey(s), b.keyCode, b.modifiers, b.longPress,
                       PrefsKey(t), ModifiersKey(t), LongPressKey(t), DefaultKeyCode(t));
  }

  /** Storing under some keys leaves what is read under other keys as it was. */
  lemma OtherKeysUntouched(p: Prefs, a: string, b: string, c: string, x: bv32, y: bv32, z: bool,
                           ka: string, kb: string, kc: string, d: bv32)
    requires ka != a && ka != b && kb != a && kb != b && kc != c
    ensures var r := Prefs(p.ints[a := x][b := y], p.bools[c := z]);
            GetInt(r, ka, d) == GetInt(p, ka, d) && GetInt(r, kb, 0) == GetInt(p, kb, 0)
            && GetBool(r, kc, false) == GetBool(p, kc, false)
  {
  }

  /** `eventModifiers`: of the normalised meta state only ALT, CTRL and SHIFT
      are kept. The normalisation itself is done by the platform. */
  function EventModifiers(normalizedMeta: bv32): (m: bv32)
    ensures m & !MODIFIER_MASK == 0
    ensures m & META_ALT_ON == normalizedMeta & META_ALT_ON
    ensures m & META_CTRL_ON == normalizedMeta & META_CTRL_ON
    ensures m & META_SHIFT_ON == normalizedMeta & META_SHIFT_ON
  {
    normalizedMeta & (META_ALT_ON | META_CTRL_ON | META_SHIFT_ON)
  }

  /** What the engine sees of a key event. `normalizedMeta` is the meta state
      after the platform's normalisation. */
  datatype KeyEvent = KeyEvent(action: int, keyCode: bv32, normalizedMeta: bv32, repeatCount: int, isLongPress: bool)

  /** A shortcut matches an event when it has a key, the key is the event's
      and its modifiers are the event's masked modifiers. */
  predicate Matches(bindings: map<Shortcut, Binding>, s: Shortcut, keyCode: bv32, mods: bv32) {
    s in bindings && bindings[s].keyCode != 0 && bindings[s].keyCode == keyCode && bindings[s].modifiers == mods
  }

  /** The matching shortcuts among those at ordinal `from` or later, in
      declaration order. */
  function MatchesFrom(bindings: map<Shortcut, Binding>, keyCode: bv32, mods: bv32, from: nat): (r: seq<Shortcut>)
    requires from <= |AllShortcuts|
    ensures forall s :: s in r <==> Ordinal(s) >= from && Matches(bindings, s, keyCode, mods)
    ensures forall i, j :: 0 <= i < j < |r| ==> Ordinal(r[i]) < Ordinal(r[j])
    decreases |AllShortcuts| - from
  {
    if from == |AllShortcuts| then []
    else
      var s := AllShortcuts[from];
      assert Ordinal(s) == from;
      var rest := MatchesFrom(bindings, keyCode, mods, from + 1);
      if Matches(bindings, s, keyCode, mods) then [s] + rest else rest
  }

  /** `shortcutsForEvent`: every matching shortcut, in declaration order,
      each once. */
  function ShortcutsForEvent(bindings: map<Shortcut, Binding>, e: KeyEvent): (r: seq<Shortcut>)
    ensures forall s :: s in r <==> Matches(bindings, s, e.keyCode, EventModifiers(e.normalizedMeta))
    ensures forall i, j :: 0 <= i < j < |r| ==> Ordinal(r[i]) < Ordinal(r[j])
  {
    MatchesFrom(bindings, e.keyCode, EventModifiers(e.normalizedMeta), 0)
  }

  /** Whether some shortcut among those at ordinal `from` or later matches. */
  function AnyFrom(bindings: map<Shortcut, Binding>, keyCode: bv32, mods: bv32, from: nat): (r: bool)
    requires from <= |AllShortcuts|
    ensures r <==> exists s :: Ordinal(s) >= from && Matches(bindings, s, keyCode, mods)
    decreases |AllShortcuts| - from
  {
    if from == |AllShortcuts| then false
    else
      var s := AllShortcuts[from];
      assert Ordinal(s) == from;
      Matches(bindings, s, keyCode, mods) || AnyFrom(bindings, keyCode, mods, from + 1)
  }

  /** `isAnyShortcutForEvent` agrees with the match list being non-empty. */
  function IsAnyShortcutForEvent(bindings: map<Shortcut, Binding>, e: KeyEvent): (r: bool)
    ensures r <==> ShortcutsForEvent(bindings, e) != []
  {
    var r := AnyFrom(bindings, e.keyCode, EventModifiers(e.normalizedMeta), 0);
    if r then
      var s :| Matches(bindings, s, e.keyCode, EventModifiers(e.normalizedMeta));
      assert s in ShortcutsForEvent(bindings, e);
      r
    else r
  }

  /** A tracked shortcut fires on key-up (`longPress` false) or on a long
      press (`longPress` true) when it has a binding of that kind with the
      event's modifiers. */
  predicate Fires(bindings: map<Shortcut, Binding>, s: Shortcut, mods: bv32, longPress: bool) {
    s in bindings && bindings[s].longPress == longPress && bindings[s].modifiers == mods
  }

  /** Index of the first tracked shortcut that fires, or -1. */
  function FirstFiring(bindings: map<Shortcut, Binding>, tracked: seq<Shortcut>, mods: bv32, longPress: bool): (i: int)
    ensures -1 <= i < |tracked|
    ensures i == -1 <==> forall j :: 0 <= j < |tracked| ==> !Fires(bindings, tracked[j], mods, longPress)
    ensures i >= 0 ==> Fires(bindings, tracked[i], mods, longPress)
                       && forall j :: 0 <= j < i ==> !Fires(bindings, tracked[j], mods, longPress)
  {
    if tracked == [] then -1
    else if Fires(bindings, tracked[0], mods, longPress) then 0
    else
      var k := FirstFiring(bindings, tracked[1..], mods, longPress);
      assert forall j :: 1 <= j < |tracked| ==> tracked[j] == tracked[1..][j - 1];
      if k == -1 then -1 else k + 1
  }

  /** The shortcut engine: the store, the running bindings, the shortcuts a
      key-down is tracking, and the actions posted to the UI thread. */
  class ShortcutMgr {
    var prefs: Prefs
    var bindings: map<Shortcut, Binding>
    var tracking: Option<seq<Shortcut>>
    var posted: seq<Shortcut>

    /** The running bindings are exactly what loading the store gives. */
    ghost predicate Valid()
      reads this
    {
      forall s :: s in bindings && bindings[s] == StoredBinding(prefs, s)
    }

    constructor (p: Prefs)
      ensures Valid() && prefs == p && tracking.None? && posted == []
    {
      var loaded := LoadAllBindings(p);
      prefs := p;
      bindings := loaded;
      tracking := None;
      posted := [];
    }

    /** `bindingFor`: the running binding, or the action's default. */
    function BindingFor(s: Shortcut): (b: Binding)
      reads this
      ensures s in bindings ==> b == bindings[s]
      ensures s !in bindings ==> b == DefaultBinding(s)
    {
      if s in bindings then bindings[s] else DefaultBinding(s)
    }

    /** `updateBinding` AS WRITTEN: unassigning removes the stored keys, so the
        running map and the store disagree afterwards. */
    method UpdateBindingAsWritten(s: Shortcut, keyCode: bv32, modifiers: bv32, longPress: bool)
      modifies this`prefs, this`bindings
      ensures prefs == PrefsAfterUpdateAsWritten(old(prefs), s, keyCode, modifiers, longPress)
      ensures bindings == old(bindings)[s := NewBinding(keyCode, modifiers, longPress)]
    {
      if keyCode == 0 {
        prefs := Prefs(prefs.ints - {PrefsKey(s), ModifiersKey(s)}, prefs.bools - {LongPressKey(s)});
        bindings := bindings[s := Binding(0, 0, false)];
        return;
      }
      prefs := Prefs(prefs.ints[PrefsKey(s) := keyCode][ModifiersKey(s) := modifiers],
                     prefs.bools[LongPressKey(s) := longPress]);
      bindings := bindings[s := Binding(keyCode, modifiers, longPress)];
    }

    /** `updateBinding` as intended: the new binding (the cleared one for key
        code 0) is stored and persisted; every other binding is unchanged. */
    method UpdateBinding(s: Shortcut, keyCode: bv32, modifiers: bv32, longPress: bool)
      requires Valid()
      modifies this`prefs, this`bindings
      ensures Valid()
      ensures prefs == PrefsAfterUpdate(old(prefs), s, keyCode, modifiers, longPress)
      ensures bindings == old(bindings)[s := NewBinding(keyCode, modifiers, longPress)]
    {
      ghost var p0 := prefs;
      prefs := PrefsAfterUpdate(prefs, s, keyCode, modifiers, longPress);
      bindings := bindings[s := NewBinding(keyCode, modifiers, longPress)];
      forall t ensures t in bindings && bindings[t] == StoredBinding(prefs, t) {
        UpdateSurvivesRestart(p0, s, keyCode, modifiers, longPress, t);
      }
    }

    /** The shared loop of key-up and long press: fire the first tracked
        shortcut of the wanted kind whose modifiers are the event's, post it
        and stop tracking; report whether one fired. */
    method FireFirstTracked(mods: bv32, longPress: bool) returns (handled: bool)
      requires tracking.Some?
      modifies this`tracking, this`posted
      ensures var i := FirstFiring(bindings, old(tracking).value, mods, longPress);
              && (handled <==> i >= 0)
              && (handled ==> posted == old(posted) + [old(tracking).value[i]] && tracking.None?)
              && (!handled ==> posted == old(posted) && tracking == old(tracking))
    {
      var tracked := tracking.value;
      var i := 0;
      while i < |tracked|
        invariant 0 <= i <= |tracked|
        invariant forall j :: 0 <= j < i ==> !Fires(bindings, tracked[j], mods, longPress)
      {
        var s := tracked[i];
        if s in bindings && bindings[s].longPress == longPress && bindings[s].modifiers == mods {
          posted := posted + [s];
          tracking := None;
          return true;
        }
        i := i + 1;
      }
      return false;
    }

    method OnKeyUp(e: KeyEvent) returns (handled: bool)
      modifies this`tracking, this`posted
      ensures old(tracking).None? ==> !handled && tracking.None? && posted == old(posted)
      ensures old(tracking).Some? ==>
                var i := FirstFiring(bindings, old(tracking).value, EventModifiers(e.normalizedMeta), false);
                && (handled <==> i >= 0)
                && (handled ==> posted == old(posted) + [old(tracking).value[i]] && tracking.None?)
                && (!handled ==> posted == old(posted) && tracking == old(tracking))
    {
      if tracking.None? {
        return false;
      }
      handled := FireFirstTracked(EventModifiers(e.normalizedMeta), false);
    }

    method OnKeyLongPress(e: KeyEvent) returns (handled: bool)
      modifies this`tracking, this`posted
      ensures old(tracking).None? ==> !handled && tracking.None? && posted == old(posted)
      ensures old(tracking).Some? ==>
                var i := FirstFiring(bindings, old(tracking).value, EventModifiers(e.normalizedMeta), true);
                && (handled <==> i >= 0)
                && (handled ==> posted == old(posted) + [old(tracking).value[i]] && tracking.None?)
                && (!handled ==> posted == old(posted) && tracking == old(tracking))
    {
      if tracking.None? {
        return false;
      }
      handled := FireFirstTracked(EventModifiers(e.normalizedMeta), true);
    }

    /** Key-down with no matching shortcut is not handled and tracks nothing
        new; otherwise the matches are tracked and the press is handled,
        unless it is a long press whose tracked shortcuts have no long-press
        binding. */
    method OnKeyDown(e: KeyEvent) returns (handled: bool)
      modifies this`tracking, this`posted
      ensures !IsAnyShortcutForEvent(bindings, e) ==>
                !handled && tracking == old(tracking) && posted == old(posted)
      ensures IsAnyShortcutForEvent(bindings, e) && !e.isLongPress ==>
                handled && tracking == Some(ShortcutsForEvent(bindings, e)) && posted == old(posted)
      ensures IsAnyShortcutForEvent(bindings, e) && e.isLongPress ==>
                var i := FirstFiring(bindings, ShortcutsForEvent(bindings, e), EventModifiers(e.normalizedMeta), true);
                && (handled <==> i >= 0)
                && (handled ==> posted == old(posted) + [ShortcutsForEvent(bindings, e)[i]] && tracking.None?)
                && (!handled ==> posted == old(posted) && tracking == Some(ShortcutsForEvent(bindings, e)))
    {
      if !IsAnyShortcutForEvent(bindings, e) {
        return false;
      }
      tracking := Some(ShortcutsForEvent(bindings, e));
      if e.isLongPress {
        handled := OnKeyLongPress(e);
        return;
      }
      return true;
    }

    /** `handle`: key-down and key-up are dispatched, any other action is
        not handled and changes nothing. */
    method Handle(e: KeyEvent) returns (handled: bool)
      modifies this`tracking, this`posted
      ensures e.action != ACTION_DOWN && e.action != ACTION_UP ==>
                !handled && tracking == old(tracking) && posted == old(posted)
      ensures e.action == ACTION_DOWN && !IsAnyShortcutForEvent(bindings, e) ==>
                !handled && tracking == old(tracking) && posted == old(posted)
      ensures e.action == ACTION_DOWN && IsAnyShortcutForEvent(bindings, e) && !e.isLongPress ==>
                handled && tracking == Some(ShortcutsForEvent(bindings, e)) && posted == old(posted)
      ensures e.action == ACTION_DOWN && IsAnyShortcutForEvent(bindings, e) && e.isLongPress ==>
                var i := FirstFiring(bindings, ShortcutsForEvent(bindings, e), EventModifiers(e.normalizedMeta), true);
                && (handled <==> i >= 0)
                && (handled ==> posted == old(posted) + [ShortcutsForEvent(bindings, e)[i]] && tracking.None?)
                && (!handled ==> posted == old(posted) && tracking == Some(ShortcutsForEvent(bindings, e)))
      ensures e.action == ACTION_UP && old(tracking).None? ==>
                !handled && tracking.None? && posted == old(posted)
      ensures e.action == ACTION_UP && old(tracking).Some? ==>
                var i := FirstFiring(bindings, old(tracking).value, EventModifiers(e.normalizedMeta), false);
                && (handled <==> i >= 0)
                && (handled ==> posted == old(posted) + [old(tracking).value[i]] && tracking.None?)
                && (!handled ==> posted == old(posted) && tracking == old(tracking))
      ensures handled ==> e.action == ACTION_DOWN || old(tracking).Some?
      ensures |old(posted)| <= |posted| <= |old(posted)| + 1 && posted[..|old(posted)|] == old(posted)
    {
      if e.action == ACTION_DOWN {
        handled := OnKeyDown(e);
      } else if e.action == ACTION_UP {
        handled := OnKeyUp(e);
      } else {
        handled := false;
      }
    }
  }

  /** A key pressed on its own (modifiers aside) matches the shortcut whose
      binding is that key: a short press fires it on key-up when it is the
      first match. */
  lemma {:induction false} PressFiresBoundShortcut(bindings: map<Shortcut, Binding>, s: Shortcut, e: KeyEvent)
    requires s in bindings && !bindings[s].longPress && bindings[s].keyCode != 0
    requires e.keyCode == bindings[s].keyCode && EventModifiers(e.normalizedMeta) == bindings[s].modifiers
    ensures s in ShortcutsForEvent(bindings, e)
    ensures IsAnyShortcutForEvent(bindings, e)
    ensures FirstFiring(bindings, ShortcutsForEvent(bindings, e), EventModifiers(e.normalizedMeta), false) >= 0
  {
    var r := ShortcutsForEvent(bindings, e);
    assert Matches(bindings, s, e.keyCode, EventModifiers(e.normalizedMeta));
    var k :| 0 <= k < |r| && r[k] == s;
    assert Fires(bindings, r[k], EventModifiers(e.normalizedMeta), false);
  }

  // ---- rendering -----------------------------------------------------------

  /** `removePrefix`. */
  function RemovePrefix(s: string, p: string): (r: string)
    ensures StartsWith(s, p) ==> p + r == s
    ensures !StartsWith(s, p) ==> r == s
  {
    if StartsWith(s, p) then
      assert p + s[|p|..] == s;
      s[|p|..]
    else s
  }

  /** The masked modifiers are zero exactly when none of the three bits
      is set. */
  lemma MaskZeroIff(m: bv32)
    ensures m & MODIFIER_MASK == 0 <==> m & META_ALT_ON == 0 && m & META_CTRL_ON == 0 && m & META_SHIFT_ON == 0
  {
  }

  /** The modifier part of a binding's label: ALT+, CTRL+, SHIFT+ in that
      order, each present exactly when its bit is set. */
  function ModifierPrefix(m: bv32): (r: string)
    ensures r == [] <==> m & MODIFIER_MASK == 0
    ensures StartsWith(r, "ALT+") <==> m & META_ALT_ON != 0
    ensures m & META_SHIFT_ON != 0 <==> EndsWith(r, "SHIFT+")
    ensures |r| == (if m & META_ALT_ON != 0 then 4 else 0) + (if m & META_CTRL_ON != 0 then 5 else 0)
                   + (if m & META_SHIFT_ON != 0 then 6 else 0)
    ensures m & META_ALT_ON != 0 ==> r[..4] == "ALT+"
    ensures m & META_CTRL_ON != 0 ==> var a := if m & META_ALT_ON != 0 then 4 else 0; r[a..a + 5] == "CTRL+"
    ensures m & META_SHIFT_ON != 0 ==> r[|r| - 6..] == "SHIFT+"
  {
    MaskZeroIff(m);
    ModifierNames(m & META_ALT_ON != 0, m & META_CTRL_ON != 0, m & META_SHIFT_ON != 0)
  }

  /** The names of the set modifiers, each followed by "+". */
  function ModifierNames(alt: bool, ctrl: bool, shift: bool): (r: string)
    ensures r == [] <==> !alt && !ctrl && !shift
    ensures StartsWith(r, "ALT+") <==> alt
    ensures shift <==> EndsWith(r, "SHIFT+")
    ensures |r| == (if alt then 4 else 0) + (if ctrl then 5 else 0) + (if shift then 6 else 0)
    ensures alt ==> r[..4] == "ALT+"
    ensures ctrl ==> var a := if alt then 4 else 0; r[a..a + 5] == "CTRL+"
    ensures shift ==> r[|r| - 6..] == "SHIFT+"
  {
    var r := (if alt then "ALT+" else "") + (if ctrl then "CTRL+" else "") + (if shift then "SHIFT+" else "");
    assert r != [] ==> r[0] == (if alt then 'A' else if ctrl then 'C' else 'S');
    assert |r| >= 3 ==> r[|r| - 3] == (if shift then 'F' else if ctrl then 'R' else 'L');
    assert alt ==> r[..4] == "ALT+";
    assert shift ==> r[|r| - 6..] == "SHIFT+";
    assert ctrl ==> var a := if alt then 4 else 0; r[a..a + 5] == "CTRL+";
    r
  }

  /** The modifier part of a label tells the masked modifiers apart: two
      modifier states give the same text exactly when they set the same
      ALT, CTRL and SHIFT bits. */
  lemma {:induction false} ModifierPrefixInjective(m1: bv32, m2: bv32)
    ensures ModifierPrefix(m1) == ModifierPrefix(m2) <==> m1 & MODIFIER_MASK == m2 & MODIFIER_MASK
  {
    var p1, p2 := ModifierPrefix(m1), ModifierPrefix(m2);
    MaskBits(m1);
    MaskBits(m2);
    if p1 == p2 {
      assert (m1 & META_ALT_ON != 0) == (m2 & META_ALT_ON != 0) by {
        assert StartsWith(p1, "ALT+") == StartsWith(p2, "ALT+");
      }
      assert (m1 & META_SHIFT_ON != 0) == (m2 & META_SHIFT_ON != 0) by {
        assert EndsWith(p1, "SHIFT+") == EndsWith(p2, "SHIFT+");
      }
      assert (m1 & META_CTRL_ON != 0) == (m2 & META_CTRL_ON != 0) by {
        assert |p1| == |p2|;
      }
    }
  }

  /** The masked modifiers are the union of the three bits, each of which is
      either clear or exactly its own value. */
  lemma MaskBits(m: bv32)
    ensures m & MODIFIER_MASK == (m & META_ALT_ON) | (m & META_CTRL_ON) | (m & META_SHIFT_ON)
    ensures m & META_ALT_ON == 0 || m & META_ALT_ON == META_ALT_ON
    ensures m & META_CTRL_ON == 0 || m & META_CTRL_ON == META_CTRL_ON
    ensures m & META_SHIFT_ON == 0 || m & META_SHIFT_ON == META_SHIFT_ON
  {
  }

  /** `shortcutKeysToString`. `longPressLabel` is the localized "long press"
      text and `keyName` the platform's name for the key code. */
  function ShortcutKeysToString(b: Binding, longPressLabel: string, keyName: string): (r: string)
    ensures b.keyCode == 0 ==> r == "—"
    ensures b.keyCode != 0 ==> EndsWith(r, RemovePrefix(keyName, "KEYCODE_"))
    ensures b.keyCode != 0 && b.longPress ==> StartsWith(r, longPressLabel + " ")
    ensures b.keyCode != 0 && !b.longPress ==> StartsWith(r, ModifierPrefix(b.modifiers))
    ensures b.keyCode != 0 ==>
              |r| == (if b.longPress then |longPressLabel| + 1 else 0) + |ModifierPrefix(b.modifiers)|
                     + |RemovePrefix(keyName, "KEYCODE_")|
    ensures b.keyCode != 0 ==>
              var a := if b.longPress then |longPressLabel| + 1 else 0;
              r[a..a + |ModifierPrefix(b.modifiers)|] == ModifierPrefix(b.modifiers)
  {
    if b.keyCode == 0 then "—"
    else
      var lp := if b.longPress then longPressLabel + " " else "";
      var mods := if b.modifiers != 0 then ModifierPrefix(b.modifiers) else "";
      assert b.modifiers == 0 ==> ModifierPrefix(b.modifiers) == "";
      var name := RemovePrefix(keyName, "KEYCODE_");
      assert (lp + mods + name)[..|lp|] == lp;
      assert (lp + mods + name)[..|lp| + |mods|] == lp + mods;
      assert (lp + mods + name)[|lp|..|lp| + |mods|] == mods;
      lp + mods + name
  }

  // ---- the shortcuts settings screen ---------------------------------------

  /** The key-capture filter of the edit dialog: only key-down, and neither
      BACK nor DPAD_CENTER; the answer is the key and its masked modifiers. */
  function CaptureKey(e: KeyEvent): (r: Option<(bv32, bv32)>)
    ensures r.Some? <==> e.action == ACTION_DOWN && e.keyCode != KEYCODE_BACK && e.keyCode != KEYCODE_DPAD_CENTER
    ensures r.Some? ==> r.value.0 == e.keyCode && r.value.1 & !MODIFIER_MASK == 0
  {
    if e.action == ACTION_DOWN && e.keyCode != KEYCODE_BACK && e.keyCode != KEYCODE_DPAD_CENTER then
      Some((e.keyCode, e.normalizedMeta & (META_ALT_ON | META_CTRL_ON | META_SHIFT_ON)))
    else None
  }

  /** A key captured by the dialog and stored as a short-press binding makes
      the same key press, with the same modifiers, match that shortcut. */
  lemma {:induction false} CapturedKeyMatches(bindings: map<Shortcut, Binding>, s: Shortcut, e: KeyEvent)
    requires CaptureKey(e).Some? && e.keyCode != 0
    ensures var c := CaptureKey(e).value;
            var b2 := bindings[s := NewBinding(c.0, c.1, false)];
            s in ShortcutsForEvent(b2, e)
            && FirstFiring(b2, ShortcutsForEvent(b2, e), EventModifiers(e.normalizedMeta), false) >= 0
  {
    var c := CaptureKey(e).value;
    var b2 := bindings[s := NewBinding(c.0, c.1, false)];
    assert c.1 == EventModifiers(e.normalizedMeta);
    PressFiresBoundShortcut(b2, s, e);
  }

  /** The shortcuts screen: which action is being edited and whether its
      dialog waits for a key. */
  class ShortcutsScreen {
    const mgr: ShortcutMgr
    var editing: Option<Shortcut>
    var waitingForKey: bool

    constructor (mgr: ShortcutMgr)
      ensures this.mgr == mgr && editing.None? && !waitingForKey
    {
      this.mgr := mgr;
      editing := None;
      waitingForKey := false;
    }

    /** The binding shown in an action's row. */
    function DisplayedBinding(s: Shortcut): (b: Binding)
      reads this, mgr
      ensures b == mgr.BindingFor(s)
      ensures mgr.Valid() ==> b == StoredBinding(mgr.prefs, s)
    {
      if s in mgr.bindings then mgr.bindings[s] else mgr.BindingFor(s)
    }

    /** The dialog may be dismissed with BACK only while not waiting for a key. */
    predicate DismissOnBackPress()
      reads this
    {
      !waitingForKey
    }

    method OpenEditor(s: Shortcut)
      modifies this`editing, this`waitingForKey
      ensures editing == Some(s) && !waitingForKey && DismissOnBackPress()
    {
      editing := Some(s);
      waitingForKey := false;
    }

    method StartWaitingForKey()
      requires editing.Some?
      modifies this`waitingForKey
      ensures waitingForKey && !DismissOnBackPress()
    {
      waitingForKey := true;
    }

    method CancelWaiting()
      modifies this`waitingForKey
      ensures !waitingForKey && DismissOnBackPress()
    {
      waitingForKey := false;
    }

    /** A key event reaching the waiting dialog: a captured key is stored as
        a short-press binding, through `updateBinding` as written, and the
        dialog closes. A captured key code 0 removes the stored keys, so the
        store then no longer agrees with the running map. */
    method OnKeyEvent(e: KeyEvent) returns (consumed: bool)
      requires editing.Some? && waitingForKey
      modifies this`editing, this`waitingForKey, mgr`prefs, mgr`bindings
      ensures consumed <==> CaptureKey(e).Some?
      ensures consumed ==> editing.None? && !waitingForKey
                           && mgr.bindings == old(mgr.bindings)[old(editing).value :=
                                NewBinding(e.keyCode, CaptureKey(e).value.1, false)]
                           && mgr.prefs == PrefsAfterUpdateAsWritten(old(mgr.prefs), old(editing).value,
                                e.keyCode, CaptureKey(e).value.1, false)
      ensures old(mgr.Valid()) && consumed && e.keyCode != 0 ==> mgr.Valid()
      ensures !consumed ==> editing == old(editing) && waitingForKey
                            && mgr.bindings == old(mgr.bindings) && mgr.prefs == old(mgr.prefs)
    {
      var c := CaptureKey(e);
      if c.None? {
        return false;
      }
      var s := editing.value;
      ghost var p0 := mgr.prefs;
      ghost var wasValid := mgr.Valid();
      mgr.UpdateBindingAsWritten(s, c.value.0, c.value.1, false);
      if wasValid && e.keyCode != 0 {
        forall t ensures t in mgr.bindings && mgr.bindings[t] == StoredBinding(mgr.prefs, t) {
          UpdateSurvivesRestart(p0, s, c.value.0, c.value.1, false, t);
        }
      }
      editing := None;
      waitingForKey := false;
      return true;
    }

    /** Clear: the action is unassigned through `updateBinding` as written,
        which removes its stored keys, and the dialog closes; a restart then
        loads the action's default binding. */
    method ClearKey()
      requires editing.Some?
      modifies this`editing, this`waitingForKey, mgr`prefs, mgr`bindings
      ensures editing.None? && !waitingForKey
      ensures mgr.bindings == old(mgr.bindings)[old(editing).value := Unassigned]
      ensures mgr.prefs == PrefsAfterUpdateAsWritten(old(mgr.prefs), old(editing).value, 0, 0, false)
      ensures StoredBinding(mgr.prefs, old(editing).value) == DefaultBinding(old(editing).value)
    {
      mgr.UpdateBindingAsWritten(editing.value, 0, 0, false);
      editing := None;
      waitingForKey := false;
    }

    method Dismiss()
      modifies this`editing, this`waitingForKey
      ensures editing.None? && !waitingForKey
    {
      editing := None;
      waitingForKey := false;
    }
  }
}
