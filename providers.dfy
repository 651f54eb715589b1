/**
 * The dark-mode provider (app/providers.tsx).
 *
 * `Providers` holds two state cells, `darkMode` (initially on) and
 * `mounted` (initially off). Its first effect marks the component mounted;
 * its second effect, rerun whenever either cell changes, puts `"dark"` on
 * the document root's class list or takes it off, but only once mounted.
 * The context that `useDarkModeContext` reads exists only once mounted.
 */
module Theme {
  import opened Wrappers

  const DarkClass: string := "dark"

  /** `classList.add("dark")` or `classList.remove("dark")`: only that class changes. */
  function WithDarkClass(classes: set<string>, dark: bool): (r: set<string>)
    ensures DarkClass in r <==> dark
    ensures r - {DarkClass} == classes - {DarkClass}
  {
    if dark then classes + {DarkClass} else classes - {DarkClass}
  }

  /** Only the last add or remove matters, so repeating one changes nothing. */
  lemma LastWriteWins(classes: set<string>, first: bool, second: bool)
    ensures WithDarkClass(WithDarkClass(classes, first), second) == WithDarkClass(classes, second)
  {
  }

  /**
   * A class list that already agrees with the flag is left as it is:
   * the effect is harmless when it reruns.
   */
  lemma SyncedIsFixed(classes: set<string>, dark: bool)
    requires DarkClass in classes <==> dark
    ensures WithDarkClass(classes, dark) == classes
  {
  }

  /** The context value: the current flag (its setter is the provider's `SetDarkMode`). */
  datatype DarkModeContext = DarkModeContext(darkMode: bool)

  /** What `useDarkModeContext` yields under the provider: `undefined` until mounted. */
  function ContextValue(mounted: bool, darkMode: bool): (r: Option<DarkModeContext>)
    ensures r.Some? <==> mounted
    ensures r.Some? ==> r.value.darkMode == darkMode
  {
    if mounted then Some(DarkModeContext(darkMode)) else None
  }

  /** The provider with its two cells and the document root's class list. */
  class Providers {
    var darkMode: bool
    var mounted: bool
    var rootClasses: set<string>

    /** Once mounted, `"dark"` is on the root exactly when dark mode is. */
    predicate Synced()
      reads this
    {
      mounted ==> (DarkClass in rootClasses <==> darkMode)
    }

    /** The first render: dark mode on, not mounted, the document untouched. */
    constructor(documentClasses: set<string>)
      ensures darkMode && !mounted && rootClasses == documentClasses
      ensures Synced() && UseDarkModeContext().None?
    {
      darkMode := true;
      mounted := false;
      rootClasses := documentClasses;
    }

    /** The second effect: write the flag to the root, if mounted. */
    method SyncEffect()
      modifies this`rootClasses
      ensures rootClasses == if mounted then WithDarkClass(old(rootClasses), darkMode) else old(rootClasses)
      ensures Synced()
    {
      if mounted {
        rootClasses := WithDarkClass(rootClasses, darkMode);
      }
    }

    /**
     * The first commit and the render it causes: the first effect sets
     * `mounted` (the second effect of that commit still sees `false` and
     * does nothing), and after the re-render the second effect runs with
     * `mounted` true.
     */
    method Mount()
      modifies this
      ensures mounted && darkMode == old(darkMode)
      ensures rootClasses == WithDarkClass(old(rootClasses), darkMode)
      ensures Synced() && UseDarkModeContext() == Some(DarkModeContext(darkMode))
    {
      mounted := true;
      SyncEffect();
    }

    /**
     * `setDarkMode(value)`: a new value re-renders and reruns the second
     * effect; the same value is a no-op. `mounted` is never reset.
     */
    method SetDarkMode(value: bool)
      requires Synced()
      modifies this
      ensures darkMode == value && mounted == old(mounted)
      ensures rootClasses == if mounted then WithDarkClass(old(rootClasses), value) else old(rootClasses)
      ensures Synced()
    {
      if value != darkMode {
        darkMode := value;
        SyncEffect();
      } else if mounted {
        SyncedIsFixed(rootClasses, darkMode);
      }
    }

    /** `useDarkModeContext()` read by a child of the provider. */
    function UseDarkModeContext(): Option<DarkModeContext>
      reads this
    {
      ContextValue(mounted, darkMode)
    }
  }

  /** Mounting, then toggling twice: the root ends with `"dark"` again and nothing else changed. */
  method ToggleTwice(documentClasses: set<string>) returns (p: Providers)
    ensures p.mounted && p.darkMode
    ensures p.rootClasses == documentClasses + {DarkClass}
  {
    p := new Providers(documentClasses);
    p.Mount();
    p.SetDarkMode(!p.darkMode);
    assert DarkClass !in p.rootClasses;
    p.SetDarkMode(!p.darkMode);
  }
}
