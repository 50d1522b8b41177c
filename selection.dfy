/**
 * The module-selection screen: a cursor over the listed modules, a map from a module's
 * relative path to whether it is selected, and the keys that move the cursor, toggle
 * one module or toggle them all. The selected paths are what the flake builder gets.
 *
 * A missing key of the map reads as false, as in Go.
 */
module Selection {
  import opened Text
  import opened Catalog

  /** What the screen receives: a key press, a new terminal size, or anything else. */
  datatype Msg = KeyMsg(key: String) | WindowSizeMsg(width: int, height: int) | OtherMsg

  /** Whether `key` is selected; a path never toggled is not. */
  function On(sel: map<String, bool>, key: String): bool {
    key in sel && sel[key]
  }

  /** The selected paths. */
  function SelectedKeys(sel: map<String, bool>): set<String> {
    set k | k in sel && sel[k]
  }

  /** The cursor points at a module, or at 0 when there is none. */
  predicate CursorInRange(cursor: int, n: nat) {
    0 <= cursor && (cursor < n || cursor == 0)
  }

  /** The cursor after a key press over `n` modules. */
  function Moved(cursor: int, n: nat, key: String): int {
    if key == "up" || key == "k" then (if cursor > 0 then cursor - 1 else cursor)
    else if key == "down" || key == "j" then (if cursor < n - 1 then cursor + 1 else cursor)
    else cursor
  }

  /** The space key: flips one path and leaves the others as they were. */
  function Toggle(sel: map<String, bool>, key: String): map<String, bool> {
    sel[key := !On(sel, key)]
  }

  /** The paths of the modules. */
  function PathsOf(mods: seq<ModuleInfo>): set<String> {
    set i | 0 <= i < |mods| :: mods[i].relPath
  }

  predicate AllOn(sel: map<String, bool>, mods: seq<ModuleInfo>) {
    forall i :: 0 <= i < |mods| ==> On(sel, mods[i].relPath)
  }

  /** Every module's path set to `v`, one module after the other. */
  function SetAll(sel: map<String, bool>, mods: seq<ModuleInfo>, v: bool): map<String, bool> {
    if mods == [] then sel else SetAll(sel, mods[..|mods| - 1], v)[mods[|mods| - 1].relPath := v]
  }

  /** The "a" key: deselects all modules when all are selected, selects all otherwise. */
  function PressAll(sel: map<String, bool>, mods: seq<ModuleInfo>): map<String, bool> {
    SetAll(sel, mods, !AllOn(sel, mods))
  }

  class SelectionModel {
    var modules: seq<ModuleInfo>
    var selected: map<String, bool>
    var cursor: int
    var rootDir: String
    var message: String
    var width: int
    var height: int

    predicate Valid()
      reads this
    {
      CursorInRange(cursor, |modules|)
    }

    /** A fresh screen over the modules listed under `rootDir`: nothing selected, 80 by 24. */
    constructor (rootDir: String, listed: seq<ModuleInfo>)
      ensures modules == listed && selected == map[] && cursor == 0
      ensures this.rootDir == rootDir && message == [] && width == 80 && height == 24
      ensures Valid()
    {
      modules := listed;
      selected := map[];
      cursor := 0;
      this.rootDir := rootDir;
      message := [];
      width := 80;
      height := 24;
    }

    /**
     * Handles one message. `ok` is false when Go would panic: a space press while the
     * cursor lies outside a non-empty module list; nothing changes then.
     */
    method Update(msg: Msg) returns (ok: bool)
      modifies this
      ensures ok <==> !(msg == KeyMsg(" ") && |modules| > 0 && !(0 <= old(cursor) < |modules|))
      ensures modules == old(modules) && rootDir == old(rootDir) && message == old(message)
      ensures msg.KeyMsg? ==> width == old(width) && height == old(height)
      ensures msg.KeyMsg? ==> cursor == Moved(old(cursor), |modules|, msg.key)
      ensures msg.KeyMsg? && msg.key == " " && |modules| > 0 && ok ==>
                selected == Toggle(old(selected), modules[old(cursor)].relPath)
      ensures msg.KeyMsg? && msg.key == "a" ==> selected == PressAll(old(selected), modules)
      ensures msg.KeyMsg? && msg.key != " " && msg.key != "a" ==> selected == old(selected)
      ensures msg.KeyMsg? && msg.key == " " && (|modules| == 0 || !ok) ==> selected == old(selected)
      ensures msg.WindowSizeMsg? ==> width == msg.width && height == msg.height
      ensures !msg.KeyMsg? ==> selected == old(selected) && cursor == old(cursor)
      ensures msg.OtherMsg? ==> width == old(width) && height == old(height)
      ensures old(Valid()) ==> Valid() && ok
    {
      ok := true;
      match msg
      case KeyMsg(key) =>
        if key == "up" || key == "k" {
          if cursor > 0 {
            cursor := cursor - 1;
          }
        } else if key == "down" || key == "j" {
          if cursor < |modules| - 1 {
            cursor := cursor + 1;
          }
        } else if key == " " {
          if |modules| > 0 {
            if !(0 <= cursor < |modules|) {
              return false;
            }
            var k := modules[cursor].relPath;
            selected := selected[k := !On(selected, k)];
          }
        } else if key == "a" {
          ToggleAll();
        }
      case WindowSizeMsg(w, h) =>
        width := w;
        height := h;
      case OtherMsg =>
    }

    /** The "a" key: looks for an unselected module, then writes every module's path. */
    method ToggleAll()
      modifies this
      ensures selected == PressAll(old(selected), modules)
      ensures modules == old(modules) && cursor == old(cursor) && rootDir == old(rootDir)
      ensures message == old(message) && width == old(width) && height == old(height)
    {
      var allSelected := true;
      var i := 0;
      while i < |modules|
        invariant 0 <= i <= |modules|
        invariant allSelected
        invariant forall j :: 0 <= j < i ==> On(selected, modules[j].relPath)
      {
        if !On(selected, modules[i].relPath) {
          allSelected := false;
          break;
        }
        i := i + 1;
      }
      assert allSelected == AllOn(selected, modules);
      ghost var before := selected;
      var mods := modules;
      for n := 0 to |mods|
        invariant selected == SetAll(before, mods[..n], !allSelected)
        invariant modules == mods && cursor == old(cursor) && rootDir == old(rootDir)
        invariant message == old(message) && width == old(width) && height == old(height)
      {
        PrefixOfPrefix(mods, n);
        selected := selected[mods[n].relPath := !allSelected];
      }
      assert mods[..|mods|] == mods;
    }

    /** The paths mapped to true, each once, in the map's order. */
    method GetSelected() returns (result: seq<String>)
      ensures forall k :: k in result <==> k in SelectedKeys(selected)
      ensures forall i, j :: 0 <= i < j < |result| ==> result[i] != result[j]
      ensures |result| == |SelectedKeys(selected)|
    {
      result := [];
      var rest := selected.Keys;
      while rest != {}
        invariant rest <= selected.Keys
        invariant forall k :: k in result <==> k in SelectedKeys(selected) && k !in rest
        invariant forall i, j :: 0 <= i < j < |result| ==> result[i] != result[j]
        invariant |result| == |SelectedKeys(selected) - rest|
        decreases rest
      {
        var k :| k in rest;
        SeenOneMore(SelectedKeys(selected), rest, k);
        if selected[k] {
          result := result + [k];
        }
        rest := rest - {k};
      }
    }

    /** The "n selected" counter of the screen: the number of entries mapped to true. */
    method SelectedCount() returns (count: nat)
      ensures count == |SelectedKeys(selected)|
    {
      count := 0;
      var rest := selected.Keys;
      while rest != {}
        invariant rest <= selected.Keys
        invariant count == |SelectedKeys(selected) - rest|
        decreases rest
      {
        var k :| k in rest;
        SeenOneMore(SelectedKeys(selected), rest, k);
        if selected[k] {
          count := count + 1;
        }
        rest := rest - {k};
      }
      assert SelectedKeys(selected) - {} == SelectedKeys(selected);
    }

    method SetSize(w: int, h: int)
      modifies this
      ensures width == w && height == h
      ensures modules == old(modules) && selected == old(selected) && cursor == old(cursor)
      ensures rootDir == old(rootDir) && message == old(message)
    {
      width := w;
      height := h;
    }

    /** Reloads the module list (`listed`: the listing now); the selection and the cursor stay. */
    method Refresh(listed: seq<ModuleInfo>)
      modifies this
      ensures modules == listed
      ensures selected == old(selected) && cursor == old(cursor) && rootDir == old(rootDir)
      ensures message == old(message) && width == old(width) && height == old(height)
    {
      modules := listed;
    }

    /** Reloads the module list and brings the cursor back onto it. */
    method RefreshClamped(listed: seq<ModuleInfo>)
      modifies this
      ensures modules == listed && Valid()
      ensures old(Valid()) && old(cursor) < |listed| ==> cursor == old(cursor)
      ensures selected == old(selected) && rootDir == old(rootDir)
      ensures message == old(message) && width == old(width) && height == old(height)
    {
      modules := listed;
      if cursor >= |modules| {
        cursor := if |modules| == 0 then 0 else |modules| - 1;
      }
      if cursor < 0 {
        cursor := 0;
      }
    }
  }

  // ---------------------------------------------------------------------------
  // Properties of the key handling

  /** A cursor on the list stays on it, and moves by at most one. */
  lemma CursorStaysInRange(cursor: int, n: nat, key: String)
    requires CursorInRange(cursor, n)
    ensures CursorInRange(Moved(cursor, n, key), n)
    ensures -1 <= Moved(cursor, n, key) - cursor <= 1
  {
  }

  /** The space key changes the toggled path and no other. */
  lemma ToggleTouchesOne(sel: map<String, bool>, key: String, other: String)
    ensures On(Toggle(sel, key), key) == !On(sel, key)
    ensures other != key ==> On(Toggle(sel, key), other) == On(sel, other)
    ensures Toggle(Toggle(sel, key), key) == sel[key := On(sel, key)]
  {
  }

  /** After setting all modules, a module's path reads `v` and every other path is as before. */
  lemma {:induction false} SetAllLookup(sel: map<String, bool>, mods: seq<ModuleInfo>, v: bool, key: String)
    ensures On(SetAll(sel, mods, v), key) == if key in PathsOf(mods) then v else On(sel, key)
  {
    if mods != [] {
      var init := mods[..|mods| - 1];
      SetAllLookup(sel, init, v, key);
      assert PathsOf(mods) == PathsOf(init) + {mods[|mods| - 1].relPath} by {
        forall p | p in PathsOf(mods) ensures p in PathsOf(init) + {mods[|mods| - 1].relPath} {
          var i :| 0 <= i < |mods| && mods[i].relPath == p;
          if i < |mods| - 1 { assert init[i] == mods[i]; }
        }
        forall p | p in PathsOf(init) ensures p in PathsOf(mods) {
          var i :| 0 <= i < |init| && init[i].relPath == p;
          assert mods[i] == init[i];
        }
      }
    }
  }

  /** The "a" key leaves every module with the same value, and paths of other modules alone. */
  lemma PressAllUniform(sel: map<String, bool>, mods: seq<ModuleInfo>, key: String)
    ensures forall i :: 0 <= i < |mods| ==> On(PressAll(sel, mods), mods[i].relPath) == !AllOn(sel, mods)
    ensures key !in PathsOf(mods) ==> On(PressAll(sel, mods), key) == On(sel, key)
  {
    forall i | 0 <= i < |mods| ensures On(PressAll(sel, mods), mods[i].relPath) == !AllOn(sel, mods) {
      SetAllLookup(sel, mods, !AllOn(sel, mods), mods[i].relPath);
    }
    SetAllLookup(sel, mods, !AllOn(sel, mods), key);
  }

  /** All selected: "a" deselects all. Not all selected: "a" selects all. */
  lemma PressAllFlips(sel: map<String, bool>, mods: seq<ModuleInfo>)
    ensures AllOn(sel, mods) ==> forall i :: 0 <= i < |mods| ==> !On(PressAll(sel, mods), mods[i].relPath)
    ensures !AllOn(sel, mods) ==> AllOn(PressAll(sel, mods), mods)
  {
    PressAllUniform(sel, mods, []);
  }

  /** Pressing "a" twice from "all selected" ends with all selected again. */
  lemma PressAllTwice(sel: map<String, bool>, mods: seq<ModuleInfo>)
    requires AllOn(sel, mods)
    ensures AllOn(PressAll(PressAll(sel, mods), mods), mods)
  {
    var once := PressAll(sel, mods);
    PressAllFlips(sel, mods);
    if mods == [] {
      assert once == sel;
    } else {
      assert !On(once, mods[0].relPath);
      PressAllFlips(once, mods);
    }
  }

  // ---------------------------------------------------------------------------
  // A stale cursor after a reload

  /**
   * Two modules, the cursor moved onto the second, a reload that finds only the first:
   * the space key then indexes past the list.
   */
  method StaleCursorAfterRefresh(first: ModuleInfo, second: ModuleInfo) returns (ok: bool)
    ensures !ok
  {
    var m := new SelectionModel([], [first, second]);
    var moved := m.Update(KeyMsg("down"));
    m.Refresh([first]);
    ok := m.Update(KeyMsg(" "));
  }

  /** With the clamping reload, the space key always finds the module under the cursor. */
  method SpaceAfterClampedRefresh(first: ModuleInfo, second: ModuleInfo) returns (ok: bool)
    ensures ok
  {
    var m := new SelectionModel([], [first, second]);
    var moved := m.Update(KeyMsg("down"));
    m.RefreshClamped([first]);
    ok := m.Update(KeyMsg(" "));
  }

  /** Taking one more key out of the unvisited ones adds it to the visited part of `all` exactly when it is in `all`. */
  lemma SeenOneMore<T>(all: set<T>, rest: set<T>, k: T)
    requires k in rest
    ensures k in all ==> all - (rest - {k}) == (all - rest) + {k} && |all - (rest - {k})| == |all - rest| + 1
    ensures k !in all ==> all - (rest - {k}) == all - rest
  {
    if k in all {
      assert k !in all - rest;
    }
  }
}
