// The chicken-cave key tracker: three sets of key names fed by keydown and
// keyup events and reset once per game tick. A key pressed since the last
// tick is "down", a key being held is "held", a key released since the
// last tick is "up".

module ChickenKeyboard {

  /** The keys the game listens for, in lower case. */
  const ActiveKeys: set<string> :=
    {"arrowup", "arrowdown", "arrowleft", "arrowright", "x", "z", "shift"}

  /** `toLowerCase` on one character (ASCII letters only). */
  function LowerChar(c: char): (r: char)
    ensures 'A' <= c <= 'Z' ==> r as int == c as int + 32
    ensures !('A' <= c <= 'Z') ==> r == c
  {
    if 'A' <= c <= 'Z' then (c as int + 32) as char else c
  }

  function Lower(s: string): (r: string)
    ensures |r| == |s|
    ensures forall i :: 0 <= i < |s| ==> r[i] == LowerChar(s[i])
  {
    if s == [] then [] else [LowerChar(s[0])] + Lower(s[1..])
  }

  /** Lower-casing twice is lower-casing once, and a lower-cased name has
      no capital letter. */
  lemma LowerIdempotent(s: string)
    ensures Lower(Lower(s)) == Lower(s)
    ensures forall i :: 0 <= i < |s| ==> !('A' <= Lower(s)[i] <= 'Z')
  {
  }

  /** The three sets. */
  datatype Keys = Keys(down: set<string>, held: set<string>, up: set<string>)

  /** Only listened-for keys ever enter a set, and a key that went down
      since the last tick is held. */
  predicate Inv(k: Keys)
  {
    k.down <= k.held <= ActiveKeys && k.up <= ActiveKeys
  }

  /** `_onKeyDown`: a listened-for key becomes held, and down too unless
      it was already held (a repeat). */
  function KeyDown(k: Keys, key: string): Keys
  {
    var name := Lower(key);
    if name in ActiveKeys then
      Keys(if name in k.held then k.down else k.down + {name}, k.held + {name}, k.up)
    else k
  }

  /** `_onKeyUp`: a listened-for key becomes up, and stops being held
      unless it went down since the last tick. */
  function KeyUp(k: Keys, key: string): Keys
  {
    var name := Lower(key);
    if name in ActiveKeys then
      Keys(k.down, if name in k.down then k.held else k.held - {name}, k.up + {name})
    else k
  }

  /** `_tick`: released keys stop being held; down and up are emptied. */
  function Ticked(k: Keys): Keys
  {
    Keys({}, k.held - k.up, {})
  }

  /** Every transition keeps `Inv`. */
  lemma TransitionsKeepInv(k: Keys, key: string)
    requires Inv(k)
    ensures Inv(KeyDown(k, key)) && Inv(KeyUp(k, key)) && Inv(Ticked(k))
  {
  }

  /** Keys outside `ActiveKeys` change nothing. */
  lemma InactiveIgnored(k: Keys, key: string)
    requires Lower(key) !in ActiveKeys
    ensures KeyDown(k, key) == k && KeyUp(k, key) == k
  {
  }

  /** A key pressed and released between two ticks is down and held for
      the tick that follows, up too, and no longer held after it. */
  lemma PressReleaseTick(k: Keys, key: string)
    requires Inv(k) && Lower(key) in ActiveKeys && Lower(key) !in k.held
    ensures var r := KeyUp(KeyDown(k, key), key);
            Lower(key) in r.down && Lower(key) in r.held && Lower(key) in r.up
            && Lower(key) !in Ticked(r).held
  {
  }

  /** A key still held at a tick, with no keyup since, stays held. */
  lemma HeldSurvivesTick(k: Keys, name: string)
    requires name in k.held && name !in k.up
    ensures name in Ticked(k).held
  {
  }

  class Keyboard {
    var keysDown: set<string>
    var keysHeld: set<string>
    var keysUp: set<string>
    var initialized: bool
    /** Event listeners attached to the control element. */
    var listeners: nat

    function State(): Keys
      reads this
    {
      Keys(keysDown, keysHeld, keysUp)
    }

    predicate Valid()
      reads this
    {
      Inv(State()) && listeners == (if initialized then 2 else 0)
    }

    constructor ()
      ensures Valid() && State() == Keys({}, {}, {}) && !initialized
    {
      keysDown, keysHeld, keysUp := {}, {}, {};
      initialized := false;
      listeners := 0;
    }

    /** `init`: attaches the keydown and keyup listeners the first time
        only. */
    method Init()
      requires Valid()
      modifies this
      ensures Valid() && initialized && State() == old(State())
      ensures listeners == 2
    {
      if initialized {
        return;
      }
      listeners := listeners + 2;
      initialized := true;
    }

    /** `_onKeyDown`; `prevented` says whether the browser default was
        suppressed. */
    method OnKeyDown(key: string) returns (prevented: bool)
      requires Valid()
      modifies this
      ensures Valid() && State() == KeyDown(old(State()), key)
      ensures initialized == old(initialized) && listeners == old(listeners)
      ensures prevented <==> Lower(key) in ActiveKeys
    {
      var name := Lower(key);
      prevented := false;
      if name in ActiveKeys {
        prevented := true;
        if name !in keysHeld {
          keysDown := keysDown + {name};
        }
        keysHeld := keysHeld + {name};
      }
    }

    /** `_onKeyUp`. */
    method OnKeyUp(key: string) returns (prevented: bool)
      requires Valid()
      modifies this
      ensures Valid() && State() == KeyUp(old(State()), key)
      ensures initialized == old(initialized) && listeners == old(listeners)
      ensures prevented <==> Lower(key) in ActiveKeys
    {
      var name := Lower(key);
      prevented := false;
      if name in ActiveKeys {
        prevented := true;
        if name !in keysDown {
          keysHeld := keysHeld - {name};
        }
        keysUp := keysUp + {name};
      }
    }

    /** `_clear`: all three sets emptied. */
    method Clear()
      requires Valid()
      modifies this
      ensures Valid() && State() == Keys({}, {}, {})
      ensures initialized == old(initialized) && listeners == old(listeners)
    {
      keysDown, keysHeld, keysUp := {}, {}, {};
    }

    /** `_tick`, deleting the released keys from held one at a time. */
    method Tick()
      requires Valid()
      modifies this
      ensures Valid() && State() == Ticked(old(State()))
      ensures initialized == old(initialized) && listeners == old(listeners)
    {
      var rest := keysUp;
      while rest != {}
        invariant rest <= keysUp && keysUp == old(keysUp) && keysDown == old(keysDown)
        invariant keysHeld == old(keysHeld) - (keysUp - rest)
        invariant initialized == old(initialized) && listeners == old(listeners)
        decreases |rest|
      {
        var key :| key in rest;
        keysHeld := keysHeld - {key};
        rest := rest - {key};
      }
      keysDown := {};
      keysUp := {};
    }

    method KeyIsDown(key: string) returns (b: bool)
      ensures b <==> key in keysDown
    {
      b := key in keysDown;
    }

    method KeyIsHeld(key: string) returns (b: bool)
      ensures b <==> key in keysHeld
    {
      b := key in keysHeld;
    }

    method KeyIsUp(key: string) returns (b: bool)
      ensures b <==> key in keysUp
    {
      b := key in keysUp;
    }
  }
}
