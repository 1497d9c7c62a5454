// The site's class-list and theme helpers (`getClasses`, `addClass`,
// `removeClass`, `toggleClass`, `loadTheme`, `toggleTheme`; the site script
// and its library copy define them identically). An element's class list
// is its `className` split at spaces; the helpers edit the list and join it
// back. The theme is the class 'dark' on the body, remembered in local
// storage under the key 'theme'.

module SiteCommon {

  import opened JsString

  /** `getClasses`: no classes for an empty `className`, otherwise its
      space-separated pieces; joining them gives the `className` back. */
  function Classes(className: string): (r: seq<string>)
    ensures className == "" ==> r == []
    ensures className != "" ==> r == Split(className, ' ')
    ensures NoSep(r, ' ')
    ensures Join(r, ' ') == className
  {
    if className == "" then []
    else
      SplitNoSepParts(className, ' ');
      JoinSplit(className, ' ');
      Split(className, ' ')
  }

  /** A class name the helpers can round-trip: not empty, no space. */
  predicate IsClassName(cls: string)
  {
    cls != "" && ' ' !in cls
  }

  /** Splitting a join of space-free names gives the names back, except
      for the single empty name, which joins to the empty `className`. */
  lemma ClassesOfJoin(parts: seq<string>)
    requires NoSep(parts, ' ') && parts != [""]
    ensures Classes(Join(parts, ' ')) == parts
  {
    if parts != [] {
      SplitJoin(parts, ' ');
      if Join(parts, ' ') == "" {
        assert false;
      }
    }
  }

  /** `addClass`: the new `className` and whether it changed. Only an
      absent class is appended; otherwise nothing changes. */
  function Add(className: string, cls: string): (r: (string, bool))
    ensures r.1 <==> cls !in Classes(className)
    ensures !r.1 ==> r.0 == className
  {
    var classes := Classes(className);
    if IndexOf(classes, cls) < 0 then (Join(classes + [cls], ' '), true)
    else (className, false)
  }

  /** `removeClass`: only a present class is removed, and only its first
      occurrence; otherwise nothing changes. */
  function Remove(className: string, cls: string): (r: (string, bool))
    ensures r.1 <==> cls in Classes(className)
    ensures !r.1 ==> r.0 == className
  {
    var classes := Classes(className);
    var index := IndexOf(classes, cls);
    if index >= 0 then (Join(RemoveAt(classes, index), ' '), true)
    else (className, false)
  }

  /** `toggleClass`: removes the first occurrence of a present class,
      appends an absent one, and reports whether it was absent. */
  function Toggle(className: string, cls: string): (r: (string, bool))
    ensures r.1 <==> cls !in Classes(className)
  {
    var classes := Classes(className);
    var index := IndexOf(classes, cls);
    var next := if index >= 0 then RemoveAt(classes, index) else classes + [cls];
    (Join(next, ' '), index < 0)
  }

  /** Toggling is adding an absent class (reporting true) and removing a
      present one (reporting false). */
  lemma ToggleIsAddOrRemove(className: string, cls: string)
    ensures cls !in Classes(className) ==> Toggle(className, cls) == Add(className, cls)
    ensures cls in Classes(className) ==> Toggle(className, cls) == (Remove(className, cls).0, false)
  {
  }

  /** After adding a class name, the class list is the old one with the
      name last. */
  lemma AddedClasses(className: string, cls: string)
    requires IsClassName(cls) && cls !in Classes(className)
    ensures Classes(Add(className, cls).0) == Classes(className) + [cls]
  {
    var classes := Classes(className);
    assert NoSep(classes + [cls], ' ') by {
      forall i | 0 <= i < |classes + [cls]|
        ensures ' ' !in (classes + [cls])[i]
      {
        if i < |classes| {
          assert (classes + [cls])[i] == classes[i];
        }
      }
    }
    assert (classes + [cls])[|classes|] == cls;
    ClassesOfJoin(classes + [cls]);
  }

  /** Removing a present class takes exactly one occurrence of it out of
      a class list without empty names. */
  lemma RemovedClasses(className: string, cls: string)
    requires "" !in Classes(className) && cls in Classes(className)
    ensures multiset(Classes(Remove(className, cls).0)) == multiset(Classes(className)) - multiset{cls}
    ensures |Classes(Remove(className, cls).0)| == |Classes(className)| - 1
  {
    var classes := Classes(className);
    var index := IndexOf(classes, cls);
    var rest := RemoveAt(classes, index);
    assert classes == classes[..index] + [cls] + classes[index + 1..];
    assert rest == classes[..index] + classes[index + 1..];
    forall i | 0 <= i < |rest|
      ensures rest[i] in classes
    {
      if i < index {
        assert rest[i] == classes[i];
      } else {
        assert rest[i] == classes[i + 1];
      }
    }
    assert NoSep(rest, ' ');
    assert "" !in rest;
    ClassesOfJoin(rest);
  }

  /** Toggling an absent class name twice gives the `className` back. */
  lemma ToggleTwice(className: string, cls: string)
    requires IsClassName(cls) && cls !in Classes(className)
    ensures Toggle(className, cls).1
    ensures Toggle(Toggle(className, cls).0, cls) == (className, false)
  {
    var classes := Classes(className);
    ToggleIsAddOrRemove(className, cls);
    AddedClasses(className, cls);
    var once := Toggle(className, cls).0;
    assert Classes(once) == classes + [cls];
    assert IndexOf(classes + [cls], cls) == |classes| by {
      assert (classes + [cls])[..|classes|] == classes;
    }
    assert RemoveAt(classes + [cls], |classes|) == classes;
  }

  /** An element: only its `className` is used. */
  class Element {
    var className: string

    constructor (className: string)
      ensures this.className == className
    {
      this.className := className;
    }

    /** `addClass(el, cls)`. */
    method AddClass(cls: string) returns (changed: bool)
      modifies this
      ensures (className, changed) == Add(old(className), cls)
    {
      var classes := Classes(className);
      var index := IndexOf(classes, cls);
      if index < 0 {
        classes := classes + [cls];
        className := Join(classes, ' ');
        return true;
      }
      return false;
    }

    /** `removeClass(el, cls)`. */
    method RemoveClass(cls: string) returns (changed: bool)
      modifies this
      ensures (className, changed) == Remove(old(className), cls)
    {
      var classes := Classes(className);
      var index := IndexOf(classes, cls);
      if index >= 0 {
        classes := RemoveAt(classes, index);
        className := Join(classes, ' ');
        return true;
      }
      return false;
    }

    /** `toggleClass(el, str)`: of its two definitions the later one is in
        force; both behave the same. */
    method ToggleClass(cls: string) returns (added: bool)
      modifies this
      ensures (className, added) == Toggle(old(className), cls)
    {
      var classes := Classes(className);
      var index := IndexOf(classes, cls);
      if index >= 0 {
        classes := RemoveAt(classes, index);
      } else {
        classes := classes + [cls];
      }
      className := Join(classes, ' ');
      added := index < 0;
    }
  }

  /** `localStorage`: its items, and whether access is allowed (when it is
      not, every access throws and the helpers swallow the error). */
  class Storage {
    const enabled: bool
    var items: map<string, string>

    constructor (enabled: bool, items: map<string, string>)
      ensures this.enabled == enabled && this.items == items
    {
      this.enabled := enabled;
      this.items := items;
    }
  }

  /** `localStorage.getItem('theme') === 'dark'`. */
  predicate StoresDark(items: map<string, string>)
  {
    "theme" in items && items["theme"] == "dark"
  }

  /** The items after `toggleTheme` has toggled with result `added`: the
      theme key is set to 'dark' when 'dark' was added and removed when it
      was taken away; no other key changes. */
  function ThemeItems(items: map<string, string>, added: bool): (r: map<string, string>)
    ensures StoresDark(r) <==> added
    ensures !added ==> "theme" !in r
    ensures forall k :: k != "theme" ==> (k in r <==> k in items) && (k in r ==> r[k] == items[k])
  {
    if added then items["theme" := "dark"] else items - {"theme"}
  }

  /** The theme survives a reload: after a toggle that turned 'dark' on,
      the next `loadTheme` finds 'dark' stored and puts it on the new body
      (whatever its classes); after one that turned it off, nothing is
      stored and the load leaves the body alone. */
  lemma ThemePersists(className: string, items: map<string, string>, next: string)
    requires "dark" !in Classes(next)
    ensures "dark" !in Classes(className) ==>
              StoresDark(ThemeItems(items, Toggle(className, "dark").1)) &&
              Classes(Add(next, "dark").0) == Classes(next) + ["dark"]
    ensures "dark" in Classes(className) ==> !StoresDark(ThemeItems(items, Toggle(className, "dark").1))
  {
    AddedClasses(next, "dark");
  }

  /** `loadTheme()`: adds 'dark' to the body when storage says 'dark'. */
  method LoadTheme(body: Element, storage: Storage)
    modifies body
    ensures storage.enabled && StoresDark(storage.items) ==> body.className == Add(old(body.className), "dark").0
    ensures !(storage.enabled && StoresDark(storage.items)) ==> body.className == old(body.className)
  {
    if storage.enabled && StoresDark(storage.items) {
      var _ := body.AddClass("dark");
    }
  }

  /** `toggleTheme()`: toggles 'dark' on the body, then stores the theme
      when it was added and forgets it when it was removed. */
  method ToggleTheme(body: Element, storage: Storage)
    modifies body, storage
    ensures var (toggled, added) := Toggle(old(body.className), "dark");
            body.className == toggled &&
            storage.items == if storage.enabled then ThemeItems(old(storage.items), added) else old(storage.items)
  {
    var added := body.ToggleClass("dark");
    if storage.enabled {
      if added {
        storage.items := storage.items["theme" := "dark"];
      } else {
        storage.items := storage.items - {"theme"};
      }
    }
  }
}
