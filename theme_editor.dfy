/**
 * The theme editor component: its state (the theme name, the colours being edited, the
 * key of the input whose picker is open) and its handlers. The colours live in a heap of
 * JavaScript objects, because `handleColorChange` copies only the top level of the
 * previous colours and then assigns through the nested objects it shares with them.
 */
module ThemeEditor {
  import opened Wrappers
  import opened Strings
  import opened ThemeTree
  import opened ThemeHeap

  /** `defaultThemeColors`, the colours a new theme starts from. */
  function DefaultColors(): Tree {
    Node([
      Entry("primary", Leaf("#1E90FF")),
      Entry("secondary", Leaf("#333333")),
      Entry("tertiary", Leaf("#666666")),
      Entry("background", Leaf("#000000")),
      Entry("surface", Leaf("#121212")),
      Entry("surfaceAlt", Leaf("#1A1A1A")),
      Entry("surfaceHover", Leaf("#2A2A2A")),
      Entry("text", Leaf("#FFFFFF")),
      Entry("textSecondary", Leaf("#CCCCCC")),
      Entry("textTertiary", Leaf("#999999")),
      Entry("textInverse", Leaf("#000000")),
      Entry("textDisabled", Leaf("#666666")),
      Entry("link", Leaf("#1E90FF")),
      Entry("linkHover", Leaf("#1570CD")),
      Entry("button", DefaultButton()),
      Entry("input", DefaultInput()),
      Entry("card", DefaultCard()),
      Entry("status", DefaultStatus()),
      Entry("nav", DefaultNav()),
      Entry("divider", Leaf("#333333")),
      Entry("shadow", Leaf("rgba(0,0,0,0.2)")),
      Entry("overlay", DefaultOverlay()),
      Entry("tooltip", DefaultTooltip()),
      Entry("icon", DefaultIcon())
    ])
  }

  /** The default `button` colours. */
  function DefaultButton(): Tree {
    Node([
      Entry("primary", Node([
        Entry("background", Leaf("#1E90FF")),
        Entry("text", Leaf("#FFFFFF")),
        Entry("border", Leaf("#1E90FF")),
        Entry("hover", Node([
          Entry("background", Leaf("#1570CD")),
          Entry("text", Leaf("#FFFFFF")),
          Entry("border", Leaf("#1570CD"))
        ])),
        Entry("active", Node([
          Entry("background", Leaf("#0E4C8B")),
          Entry("text", Leaf("#FFFFFF")),
          Entry("border", Leaf("#0E4C8B"))
        ])),
        Entry("disabled", Node([
          Entry("background", Leaf("#666666")),
          Entry("text", Leaf("#FFFFFF")),
          Entry("border", Leaf("#666666"))
        ]))
      ])),
      Entry("secondary", Node([
        Entry("background", Leaf("#333333")),
        Entry("text", Leaf("#FFFFFF")),
        Entry("border", Leaf("#333333")),
        Entry("hover", Node([
          Entry("background", Leaf("#444444")),
          Entry("text", Leaf("#FFFFFF")),
          Entry("border", Leaf("#444444"))
        ])),
        Entry("active", Node([
          Entry("background", Leaf("#555555")),
          Entry("text", Leaf("#FFFFFF")),
          Entry("border", Leaf("#555555"))
        ])),
        Entry("disabled", Node([
          Entry("background", Leaf("#666666")),
          Entry("text", Leaf("#FFFFFF")),
          Entry("border", Leaf("#666666"))
        ]))
      ])),
      Entry("cta", Node([
        Entry("background", Leaf("#00FF00")),
        Entry("text", Leaf("#000000")),
        Entry("border", Leaf("#00FF00")),
        Entry("hover", Node([
          Entry("background", Leaf("#00CC00")),
          Entry("text", Leaf("#000000")),
          Entry("border", Leaf("#00CC00"))
        ])),
        Entry("active", Node([
          Entry("background", Leaf("#009900")),
          Entry("text", Leaf("#000000")),
          Entry("border", Leaf("#009900"))
        ])),
        Entry("disabled", Node([
          Entry("background", Leaf("#666666")),
          Entry("text", Leaf("#FFFFFF")),
          Entry("border", Leaf("#666666"))
        ]))
      ]))
    ])
  }

  /** The default `input` colours. */
  function DefaultInput(): Tree {
    Node([
      Entry("background", Leaf("#1A1A1A")),
      Entry("text", Leaf("#FFFFFF")),
      Entry("border", Leaf("#333333")),
      Entry("placeholder", Leaf("#999999")),
      Entry("focus", Node([
        Entry("background", Leaf("#2A2A2A")),
        Entry("border", Leaf("#1E90FF")),
        Entry("shadow", Leaf("rgba(30,144,255,0.2)"))
      ])),
      Entry("error", Node([
        Entry("background", Leaf("#FF000010")),
        Entry("border", Leaf("#FF0000")),
        Entry("text", Leaf("#FF0000"))
      ]))
    ])
  }

  /** The default `card` colours. */
  function DefaultCard(): Tree {
    Node([
      Entry("background", Leaf("#1A1A1A")),
      Entry("border", Leaf("#333333")),
      Entry("shadow", Leaf("rgba(0,0,0,0.1)")),
      Entry("hover", Node([
        Entry("background", Leaf("#2A2A2A")),
        Entry("border", Leaf("#1E90FF")),
        Entry("shadow", Leaf("rgba(30,144,255,0.2)"))
      ]))
    ])
  }

  /** The default `status` colours. */
  function DefaultStatus(): Tree {
    Node([
      Entry("error", Node([
        Entry("background", Leaf("#FF000010")),
        Entry("text", Leaf("#FF0000")),
        Entry("border", Leaf("#FF0000"))
      ])),
      Entry("success", Node([
        Entry("background", Leaf("#00FF0010")),
        Entry("text", Leaf("#00FF00")),
        Entry("border", Leaf("#00FF00"))
      ])),
      Entry("warning", Node([
        Entry("background", Leaf("#FFA50010")),
        Entry("text", Leaf("#FFA500")),
        Entry("border", Leaf("#FFA500"))
      ])),
      Entry("info", Node([
        Entry("background", Leaf("#0088FF10")),
        Entry("text", Leaf("#0088FF")),
        Entry("border", Leaf("#0088FF"))
      ]))
    ])
  }

  /** The default `nav` colours. */
  function DefaultNav(): Tree {
    Node([
      Entry("background", Leaf("#1A1A1A")),
      Entry("text", Leaf("#FFFFFF")),
      Entry("hover", Node([
        Entry("background", Leaf("#2A2A2A")),
        Entry("text", Leaf("#1E90FF"))
      ])),
      Entry("active", Node([
        Entry("background", Leaf("#2A2A2A")),
        Entry("text", Leaf("#1E90FF")),
        Entry("border", Leaf("#1E90FF"))
      ]))
    ])
  }

  /** The default `overlay` colours. */
  function DefaultOverlay(): Tree {
    Node([
      Entry("background", Leaf("rgba(0,0,0,0.7)")),
      Entry("text", Leaf("#FFFFFF"))
    ])
  }

  /** The default `tooltip` colours. */
  function DefaultTooltip(): Tree {
    Node([
      Entry("background", Leaf("#000000")),
      Entry("text", Leaf("#FFFFFF")),
      Entry("border", Leaf("#333333"))
    ])
  }

  /** The default `icon` colours. */
  function DefaultIcon(): Tree {
    Node([
      Entry("primary", Leaf("#1E90FF")),
      Entry("secondary", Leaf("#999999")),
      Entry("disabled", Leaf("#666666"))
    ])
  }

  /** A theme as the editor receives it and hands it to `onSave`. */
  datatype Theme = Theme(id: string, name: string, colors: Tree, isActive: bool)

  /** `theme?.name || 'New Theme'`: a missing or empty name becomes the placeholder. */
  function InitialName(theme: Option<Theme>): (r: string)
    ensures r != ""
    ensures theme.Some? && theme.value.name != "" ==> r == theme.value.name
    ensures theme.None? || theme.value.name == "" ==> r == "New Theme"
  {
    if theme.Some? && theme.value.name != "" then theme.value.name else "New Theme"
  }

  /** `prev === key ? null : key`: pressing the open input closes it, any other opens it. */
  function TogglePicker(prev: Option<string>, key: Option<string>): (r: Option<string>)
    ensures r.None? <==> (prev == key || key.None?)
    ensures r.Some? ==> r == key
  {
    if prev == key then None else key
  }

  /**
   * At most one picker is open, and an input's own close handler (which toggles its own
   * key again) closes it: the input shown open is the one last toggled, and toggling it
   * twice from closed returns to closed.
   */
  lemma PickerOpenClose(prev: Option<string>, k: string)
    ensures TogglePicker(prev, Some(k)) == Some(k) <==> prev != Some(k)
    ensures TogglePicker(TogglePicker(prev, Some(k)), Some(k)) == (if prev == Some(k) then Some(k) else None)
    ensures forall j :: TogglePicker(prev, Some(k)) == Some(j) ==> j == k
  {
  }

  /** The page once the module is loaded: the default colours object and the heap holding it. */
  function ModuleLoaded(): (r: Built)
    ensures Closed(r.heap) && Below(r.heap, r.next)
  {
    AllocVal(map[], 0, DefaultColors())
  }

  lemma ModuleLoadedView()
    ensures var r := ModuleLoaded();
      r.v.Ref? && r.v.addr in r.heap && View(r.heap, r.v.addr) == DefaultColors() && Shaped(r.heap, r.v.addr)
  {
    var t := DefaultColors();
    assert t.Node?;
    AllocObject(map[], 0, t);
  }

  /**
   * The loop of `handleColorChange` that follows the keys from `start`, one property read
   * at a time; None is the TypeError of reading a property of `undefined`.
   */
  method WalkKeys(h: Heap, start: JsVal, ks: seq<string>) returns (r: Option<JsVal>)
    requires Closed(h) && InHeap(h, start)
    ensures r == WalkTo(h, start, ks)
  {
    var target := start;
    var i := 0;
    while i < |ks|
      invariant 0 <= i <= |ks|
      invariant InHeap(h, target)
      invariant WalkTo(h, start, ks[..i]) == Some(target)
    {
      var next := ReadProp(h, target, ks[i]);
      assert ks[..i + 1][..i] == ks[..i];
      if next.None? {
        WalkStuck(h, start, ks, i + 1);
        return None;
      }
      target := next.value;
      i := i + 1;
    }
    assert ks[..i] == ks;
    r := Some(target);
  }

  /**
   * The body of the `setColors` updater: copy the top level to `n`, walk all keys but the
   * last from the copy, and assign the colour there.
   */
  method ChangeColors(h: Heap, a: nat, n: nat, keys: seq<string>, c: string) returns (r: Option<Heap>)
    requires Closed(h) && a in h && Below(h, n) && |keys| >= 1
    ensures r == ColorChange(h, a, n, keys, c)
  {
    var h1 := CopyTop(h, a, n);
    var target := WalkKeys(h1, JsObj(n), keys[..|keys| - 1]);
    if target.Some? && target.value.JsObj? {
      r := Some(StrWrite(h1, target.value.addr, keys[|keys| - 1], c));
    } else {
      r := None;
    }
  }

  /** What `ColorChange` does to an editor's heap, gathered for `HandleColorChange`. */
  lemma ColorChangeFacts(h: Heap, a: nat, n: nat, keys: seq<string>, c: string, d: nat)
    requires Closed(h) && Below(h, n) && a in h && d in h && Shaped(h, a) && Shaped(h, d)
    requires |keys| >= 1
    ensures ColorChange(h, a, n, keys, c).Some? <==> SetPath(View(h, a), keys, c).Some?
    ensures ColorChange(h, a, n, keys, c).Some? ==>
      var h2 := ColorChange(h, a, n, keys, c).value;
      && Closed(h2) && Below(h2, n + 1) && a in h2 && d in h2 && n in h2
      && Shaped(h2, n) && Shaped(h2, d)
      && View(h2, n) == SetPath(View(h, a), keys, c).value
      && (|keys| == 1 ==> View(h2, a) == View(h, a))
      && (|keys| >= 2 ==> View(h2, a) == View(h2, n))
  {
    ColorChangeView(h, a, n, keys, c);
    if ColorChange(h, a, n, keys, c).Some? {
      ColorChangeShares(h, a, n, keys, c);
      ColorChangeKeepsShaped(h, a, n, keys, c, d);
    }
  }

  /** The copying updater: the edited colours built as a fresh object tree from `n` on. */
  function CopyEdit(h: Heap, a: nat, n: nat, keys: seq<string>, c: string): Option<Built>
    requires Closed(h) && Below(h, n) && a in h && |keys| >= 1
  {
    var w := SetPath(View(h, a), keys, c);
    if w.Some? && w.value.Node? then Some(AllocVal(h, n, w.value)) else None
  }

  /** What `CopyEdit` does to an editor's heap, gathered for `HandleColorChangeCopying`. */
  lemma CopyingChangeFacts(h: Heap, a: nat, n: nat, keys: seq<string>, c: string, d: nat)
    requires Closed(h) && Below(h, n) && a in h && d in h && Shaped(h, a) && Shaped(h, d)
    requires |keys| >= 1
    ensures CopyEdit(h, a, n, keys, c).Some? <==> SetPath(View(h, a), keys, c).Some?
    ensures CopyEdit(h, a, n, keys, c).Some? ==>
      var b := CopyEdit(h, a, n, keys, c).value;
      && b.v.Ref? && Closed(b.heap) && Below(b.heap, b.next) && b.v.addr in b.heap && d in b.heap
      && Shaped(b.heap, b.v.addr) && Shaped(b.heap, d) && View(b.heap, b.v.addr) == SetPath(View(h, a), keys, c).value
      && forall y :: y in h ==> y in b.heap && View(b.heap, y) == View(h, y)
  {
    var w := SetPath(View(h, a), keys, c);
    if w.Some? {
      assert w.value.Node?;
      AllocKeepsOld(h, n, w.value);
    }
  }

  class Editor {
    /** The objects of the page, the next unused address, and where the two colour objects are. */
    var heap: Heap
    var next: nat
    var defaults: nat
    var colors: nat
    var name: string
    var activeColorKey: Option<string>
    /** The `theme` prop the editor was mounted with. */
    const theme: Option<Theme>

    predicate Valid()
      reads this
    {
      && Closed(heap) && Below(heap, next)
      && defaults in heap && colors in heap
      && Shaped(heap, defaults) && Shaped(heap, colors)
    }

    /** The colours being edited, as a tree. */
    function Colors(): Tree
      reads this
      requires Valid()
    {
      View(heap, colors)
    }

    /** The default colours object, as a tree. */
    function Defaults(): Tree
      reads this
      requires Valid()
    {
      View(heap, defaults)
    }

    /**
     * Mounting the editor on a page whose heap `h` holds the default colours object at
     * `d`: `useState(theme?.colors || defaultThemeColors)` keeps an object that already
     * exists. For a given theme it is that theme's own colours object at `tc`, which the
     * themes list holds too; for a new theme it is the default colours object itself. No
     * object is built and nothing on the page changes.
     */
    constructor (h: Heap, nx: nat, d: nat, theme: Option<Theme>, tc: nat)
      requires Closed(h) && Below(h, nx) && d in h && Shaped(h, d)
      requires theme.Some? ==> tc in h && Shaped(h, tc) && View(h, tc) == theme.value.colors
      ensures Valid() && defaults == d && heap == h && next == nx
      ensures colors == if theme.Some? then tc else d
      ensures Colors() == if theme.Some? then theme.value.colors else View(h, d)
      ensures name == InitialName(theme) && activeColorKey.None? && this.theme == theme
    {
      heap, next, defaults := h, nx, d;
      colors := if theme.Some? then tc else d;
      name := InitialName(theme);
      activeColorKey := None;
      this.theme := theme;
    }

    /**
     * `handleColorChange(key, value)`: copy the top level of the colours to a new object,
     * walk `key.split('.')` but the last key down from it, and assign `value` there. It
     * fails (`ok` false, where the page throws a TypeError from inside the updater)
     * exactly when the path write on the colours tree is undefined. On success the colours read out as that write, and
     * under a nested key the previous colours object shows the change as well.
     */
    method HandleColorChange(key: string, value: string) returns (ok: bool)
      requires Valid()
      modifies this
      ensures Valid()
      ensures ok <==> SetPath(old(Colors()), Split(key, '.'), value).Some?
      ensures ok ==> Colors() == SetPath(old(Colors()), Split(key, '.'), value).value
      ensures ok == ColorChange(old(heap), old(colors), old(next), Split(key, '.'), value).Some?
      ensures ok ==> heap == ColorChange(old(heap), old(colors), old(next), Split(key, '.'), value).value
      ensures ok ==> colors == old(next) && next == old(next) + 1
      ensures !ok ==> heap == old(heap) && colors == old(colors) && next == old(next)
      ensures defaults == old(defaults) && name == old(name) && activeColorKey == old(activeColorKey)
      ensures old(colors) in heap
      ensures ok && |Split(key, '.')| >= 2 ==> View(heap, old(colors)) == Colors()
      ensures ok && |Split(key, '.')| == 1 ==> View(heap, old(colors)) == old(Colors())
    {
      var keys := Split(key, '.');
      var h, a, n := heap, colors, next;
      var r := ChangeColors(h, a, n, keys, value);
      ColorChangeFacts(h, a, n, keys, value, defaults);
      ok := r.Some?;
      if ok {
        heap, colors, next := r.value, n, n + 1;
      }
    }

    /**
     * A copying `handleColorChange`: the updated colours are built as a fresh object tree,
     * so no object that existed before, the previous colours and the defaults among them,
     * changes.
     */
    method HandleColorChangeCopying(key: string, value: string) returns (ok: bool)
      requires Valid()
      modifies this
      ensures Valid()
      ensures ok <==> SetPath(old(Colors()), Split(key, '.'), value).Some?
      ensures ok ==> Colors() == SetPath(old(Colors()), Split(key, '.'), value).value
      ensures !ok ==> heap == old(heap) && colors == old(colors) && next == old(next)
      ensures forall y :: y in old(heap) ==> y in heap && View(heap, y) == old(View(heap, y))
      ensures Defaults() == old(Defaults())
      ensures defaults == old(defaults) && name == old(name) && activeColorKey == old(activeColorKey)
    {
      var keys := Split(key, '.');
      var r := CopyEdit(heap, colors, next, keys, value);
      CopyingChangeFacts(heap, colors, next, keys, value, defaults);
      ok := r.Some?;
      if ok {
        heap, next, colors := r.value.heap, r.value.next, r.value.v.addr;
      }
    }

    /** `handlePickerOpen(key)`. */
    method HandlePickerOpen(key: Option<string>)
      modifies this
      ensures activeColorKey == TogglePicker(old(activeColorKey), key)
      ensures heap == old(heap) && next == old(next) && colors == old(colors)
      ensures defaults == old(defaults) && name == old(name)
    {
      activeColorKey := TogglePicker(activeColorKey, key);
    }

    /** The name input's `onChangeText`. */
    method SetName(s: string)
      modifies this
      ensures name == s
      ensures heap == old(heap) && next == old(next) && colors == old(colors)
      ensures defaults == old(defaults) && activeColorKey == old(activeColorKey)
    {
      name := s;
    }

    /**
     * `handleSave`: the edited theme keeps the id and the active flag it was mounted
     * with; a new theme is saved with an empty id and inactive.
     */
    method HandleSave() returns (saved: Theme)
      requires Valid()
      ensures saved.name == name && saved.colors == Colors()
      ensures theme.Some? ==> saved.id == theme.value.id && saved.isActive == theme.value.isActive
      ensures theme.None? ==> saved.id == "" && !saved.isActive
    {
      var id := if theme.Some? then theme.value.id else "";
      var active := theme.Some? && theme.value.isActive;
      saved := Theme(id, name, Colors(), active);
    }
  }

  /** Looking up a key finds its first occurrence. */
  lemma {:induction false} LookupFirst(es: Entries, k: string, j: nat)
    requires j < |es| && es[j].key == k
    requires forall i :: 0 <= i < j ==> es[i].key != k
    ensures Lookup(es, k) == Some(es[j].value)
    decreases j
  {
    if j > 0 {
      assert forall i :: 0 <= i < j - 1 ==> es[1..][i] == es[i + 1];
      LookupFirst(es[1..], k, j - 1);
    }
  }

  /** The default input background is a colour inside the `input` object. */
  lemma DefaultInputBackground()
    ensures Get(DefaultColors(), ["input", "background"]) == Some(Leaf("#1A1A1A"))
  {
    DefaultInputLookup();
    assert Lookup(DefaultInput().entries, "background") == Some(Leaf("#1A1A1A"));
    GetPair(DefaultColors(), "input", "background");
  }

  lemma DefaultInputLookup()
    ensures Lookup(DefaultColors().entries, "input") == Some(DefaultInput())
  {
    var es := DefaultColors().entries;
    assert forall i :: 0 <= i < 15 ==> es[i].key != "input";
    LookupFirst(es, "input", 15);
  }

  /** A two-key path: the property of the object found under the first key. */
  lemma GetPair(t: Tree, a: string, b: string)
    requires t.Node? && Lookup(t.entries, a).Some? && Lookup(t.entries, a).value.Node?
    ensures Get(t, [a, b]) == Lookup(Lookup(t.entries, a).value.entries, b)
  {
    var u := Lookup(t.entries, a).value;
    assert [a, b][1..] == [b] && [b][1..] == [];
    assert Get(t, [a, b]) == Get(u, [b]);
    if Lookup(u.entries, b).Some? {
      assert Get(u, [b]) == Get(Lookup(u.entries, b).value, []);
    }
  }

  lemma SplitInputBackground()
    ensures Split("input.background", '.') == ["input", "background"]
  {
    assert Join(["input", "background"], '.') == "input" + ['.'] + "background" == "input.background";
    SplitJoin(["input", "background"], '.');
  }

  /** Writing white to the default input background succeeds and changes the colours. */
  lemma DefaultInputEdit()
    ensures var w := SetPath(DefaultColors(), Split("input.background", '.'), "#FFFFFF");
      && |Split("input.background", '.')| == 2
      && w.Some? && Get(w.value, ["input", "background"]) == Some(Leaf("#FFFFFF"))
      && w.value != DefaultColors()
  {
    DefaultInputBackground();
    SplitInputBackground();
    SetPathDefinedAtLeaf(DefaultColors(), ["input", "background"], "#1A1A1A", "#FFFFFF");
    SetPathGet(DefaultColors(), ["input", "background"], "#FFFFFF");
  }

  /**
   * A new theme whose input background is edited, on a page holding the default colours
   * object (as the page is once the module is loaded, see `ModuleLoadedView`): the edit
   * succeeds and shows in the colours, and the default colours object, which every later
   * new theme starts from, now holds the edited colour too.
   */
  method NewThemeEditChangesDefaults(h: Heap, nx: nat, d: nat) returns (ok: bool, before: Tree, after: Tree)
    requires Closed(h) && Below(h, nx) && d in h && Shaped(h, d) && View(h, d) == DefaultColors()
    ensures ok && before == DefaultColors() && after != before
    ensures Get(after, ["input", "background"]) == Some(Leaf("#FFFFFF"))
  {
    var e := new Editor(h, nx, d, None, d);
    before := e.Defaults();
    DefaultInputEdit();
    ok := e.HandleColorChange("input.background", "#FFFFFF");
    after := e.Defaults();
  }

  /**
   * An existing theme whose input background is edited: the edit succeeds, and the theme's
   * own colours object, the one the themes list holds, reads out the unsaved colour, so
   * cancelling and editing that theme again starts from the edit.
   */
  method ExistingThemeEditChangesItsColors(h: Heap, nx: nat, d: nat, t: Theme, tc: nat, was: string)
    returns (ok: bool, after: Tree)
    requires Closed(h) && Below(h, nx) && d in h && Shaped(h, d)
    requires tc in h && Shaped(h, tc) && View(h, tc) == t.colors
    requires Get(t.colors, ["input", "background"]) == Some(Leaf(was)) && was != "#FFFFFF"
    ensures ok && after != t.colors
    ensures Get(after, ["input", "background"]) == Some(Leaf("#FFFFFF"))
  {
    var e := new Editor(h, nx, d, Some(t), tc);
    SplitInputBackground();
    SetPathDefinedAtLeaf(t.colors, ["input", "background"], was, "#FFFFFF");
    SetPathGet(t.colors, ["input", "background"], "#FFFFFF");
    ok := e.HandleColorChange("input.background", "#FFFFFF");
    after := View(e.heap, tc);
  }

  /** The same edit through the copying handler leaves the theme's own colours object as it was. */
  method ExistingThemeCopyingEditKeepsItsColors(h: Heap, nx: nat, d: nat, t: Theme, tc: nat, was: string)
    returns (ok: bool, after: Tree, edited: Tree)
    requires Closed(h) && Below(h, nx) && d in h && Shaped(h, d)
    requires tc in h && Shaped(h, tc) && View(h, tc) == t.colors
    requires Get(t.colors, ["input", "background"]) == Some(Leaf(was))
    ensures ok && after == t.colors
    ensures Get(edited, ["input", "background"]) == Some(Leaf("#FFFFFF"))
  {
    var e := new Editor(h, nx, d, Some(t), tc);
    SplitInputBackground();
    SetPathDefinedAtLeaf(t.colors, ["input", "background"], was, "#FFFFFF");
    SetPathGet(t.colors, ["input", "background"], "#FFFFFF");
    ok := e.HandleColorChangeCopying("input.background", "#FFFFFF");
    after := View(e.heap, tc);
    edited := e.Colors();
  }

  /** The same edit through the copying handler leaves the defaults as they were. */
  method NewThemeCopyingEditKeepsDefaults(h: Heap, nx: nat, d: nat) returns (ok: bool, before: Tree, after: Tree, edited: Tree)
    requires Closed(h) && Below(h, nx) && d in h && Shaped(h, d) && View(h, d) == DefaultColors()
    ensures ok && before == DefaultColors() && after == before
    ensures Get(edited, ["input", "background"]) == Some(Leaf("#FFFFFF"))
  {
    var e := new Editor(h, nx, d, None, d);
    before := e.Defaults();
    DefaultInputEdit();
    ok := e.HandleColorChangeCopying("input.background", "#FFFFFF");
    after := e.Defaults();
    edited := e.Colors();
  }
}
