/**
 * The colour sections of the theme editor, each as the layout of the literal it hands to
 * `ColorSection`, and the button section, which builds its keys by hand.
 */
module ThemeLayouts {
  import opened Wrappers
  import opened Strings
  import opened ThemeTree
  import opened ThemeSections

  // ---------------------------------------------------------------------------
  // The section literals

  function MainColors(): seq<Item> {
    [Pick("primary", ["primary"]), Pick("secondary", ["secondary"]), Pick("tertiary", ["tertiary"])]
  }

  function BackgroundColors(): seq<Item> {
    [
      Pick("background", ["background"]),
      Pick("surface", ["surface"]),
      Pick("surfaceAlt", ["surfaceAlt"]),
      Pick("surfaceHover", ["surfaceHover"])
    ]
  }

  function TextColors(): seq<Item> {
    [
      Pick("text", ["text"]),
      Pick("textSecondary", ["textSecondary"]),
      Pick("textTertiary", ["textTertiary"]),
      Pick("textInverse", ["textInverse"]),
      Pick("textDisabled", ["textDisabled"]),
      Pick("link", ["link"]),
      Pick("linkHover", ["linkHover"])
    ]
  }

  function UIElements(): seq<Item> {
    [
      Pick("divider", ["divider"]),
      Pick("shadow", ["shadow"]),
      Group("overlay", [Pick("background", ["overlay", "background"]), Pick("text", ["overlay", "text"])])
    ]
  }

  /** As the editor writes it: each entry shows a nested colour under a top-level key. */
  function StatusColors(): seq<Item> {
    [
      Pick("error", ["status", "error", "background"]),
      Pick("success", ["status", "success", "background"]),
      Pick("warning", ["status", "warning", "background"]),
      Pick("info", ["status", "info", "background"]),
      Pick("icon", ["icon", "primary"])
    ]
  }

  function Forms(): seq<Item> {
    [
      Group("input", [
        Pick("background", ["input", "background"]),
        Pick("text", ["input", "text"]),
        Pick("border", ["input", "border"]),
        Pick("placeholder", ["input", "placeholder"]),
        Group("focus", [
          Pick("background", ["input", "focus", "background"]),
          Pick("border", ["input", "focus", "border"]),
          Pick("shadow", ["input", "focus", "shadow"])
        ]),
        Group("error", [
          Pick("background", ["input", "error", "background"]),
          Pick("border", ["input", "error", "border"]),
          Pick("text", ["input", "error", "text"])
        ])
      ])
    ]
  }

  function Cards(): seq<Item> {
    [
      Group("card", [
        Pick("background", ["card", "background"]),
        Pick("border", ["card", "border"]),
        Pick("shadow", ["card", "shadow"]),
        Group("hover", [
          Pick("background", ["card", "hover", "background"]),
          Pick("border", ["card", "hover", "border"]),
          Pick("shadow", ["card", "hover", "shadow"])
        ])
      ])
    ]
  }

  function Navigation(): seq<Item> {
    [
      Group("nav", [
        Pick("background", ["nav", "background"]),
        Pick("text", ["nav", "text"]),
        Group("hover", [Pick("background", ["nav", "hover", "background"]), Pick("text", ["nav", "hover", "text"])]),
        Group("active", [
          Pick("background", ["nav", "active", "background"]),
          Pick("text", ["nav", "active", "text"]),
          Pick("border", ["nav", "active", "border"])
        ])
      ])
    ]
  }

  function MiscUI(): seq<Item> {
    [
      Pick("divider", ["divider"]),
      Group("tooltip", [
        Pick("background", ["tooltip", "background"]),
        Pick("text", ["tooltip", "text"]),
        Pick("border", ["tooltip", "border"])
      ])
    ]
  }

  /** The sections whose literal copies the colour tree, in display order. */
  function MirroredSections(): seq<seq<Item>> {
    [MainColors(), BackgroundColors(), TextColors(), UIElements(), Forms(), Cards(), Navigation(), MiscUI()]
  }

  // ---------------------------------------------------------------------------
  // Write-back in the mirrored sections

  // Each lemma below checks a few items of one literal; the checks are split so that
  // each stays small.

  lemma MainColorsFaithful()
    ensures Faithful(MainColors(), [], 0)
  {
  }

  lemma BackgroundColorsFaithful()
    ensures Faithful(BackgroundColors(), [], 0)
  {
  }

  lemma TextColorsFaithfulFrom4()
    ensures Faithful(TextColors(), [], 4)
  {
  }

  lemma TextColorsFaithfulFrom2()
    ensures Faithful(TextColors(), [], 2)
  {
    TextColorsFaithfulFrom4();
  }

  lemma TextColorsFaithful()
    ensures Faithful(TextColors(), [], 0)
  {
    TextColorsFaithfulFrom2();
  }

  lemma UIElementsFaithful()
    ensures Faithful(UIElements(), [], 0)
  {
  }

  lemma FormsFocusFaithful()
    ensures Faithful(Forms()[0].items[4].items, ["input", "focus"], 0)
  {
  }

  lemma FormsErrorFaithful()
    ensures Faithful(Forms()[0].items[5].items, ["input", "error"], 0)
  {
  }

  lemma FormsInputFaithfulFrom3()
    ensures Faithful(Forms()[0].items, ["input"], 3)
  {
    FormsFocusFaithful();
    FormsErrorFaithful();
  }

  lemma FormsFaithful()
    ensures Faithful(Forms(), [], 0)
  {
    FormsInputFaithfulFrom3();
    var its := Forms()[0].items;
    assert Faithful(its, ["input"], 2);
    assert Faithful(its, ["input"], 1);
    assert Faithful(its, ["input"], 0);
    assert FaithfulItem(Forms()[0], []);
  }

  lemma CardsHoverFaithful()
    ensures Faithful(Cards()[0].items[3].items, ["card", "hover"], 0)
  {
  }

  lemma CardsFaithful()
    ensures Faithful(Cards(), [], 0)
  {
    CardsHoverFaithful();
    assert Faithful(Cards()[0].items, ["card"], 0);
  }

  lemma NavigationHoverFaithful()
    ensures Faithful(Navigation()[0].items[2].items, ["nav", "hover"], 0)
  {
  }

  lemma NavigationActiveFaithful()
    ensures Faithful(Navigation()[0].items[3].items, ["nav", "active"], 0)
  {
  }

  lemma NavigationFaithful()
    ensures Faithful(Navigation(), [], 0)
  {
    NavigationHoverFaithful();
    NavigationActiveFaithful();
    assert Faithful(Navigation()[0].items, ["nav"], 0);
  }

  lemma MiscUIFaithful()
    ensures Faithful(MiscUI(), [], 0)
  {
  }

  /**
   * In the Main, Background, Text, UI Elements, Forms, Cards, Navigation and Misc UI
   * sections, every rendered input writes back to the leaf it displays.
   */
  lemma MirroredWriteBack(c: Tree, s: nat, i: nat)
    requires c.Node? && WellKeyed(c) && s < |MirroredSections()| && Readable(c, MirroredSections()[s])
    requires i < |RenderSection(Build(c, MirroredSections()[s]))|
    ensures Addresses(c, RenderSection(Build(c, MirroredSections()[s]))[i])
  {
    if s == 0 { MainColorsFaithful(); }
    else if s == 1 { BackgroundColorsFaithful(); }
    else if s == 2 { TextColorsFaithful(); }
    else if s == 3 { UIElementsFaithful(); }
    else if s == 4 { FormsFaithful(); }
    else if s == 5 { CardsFaithful(); }
    else if s == 6 { NavigationFaithful(); }
    else { MiscUIFaithful(); }
    LayoutWriteBack(c, MirroredSections()[s], i);
  }

  // ---------------------------------------------------------------------------
  // The Status Colors section

  /** The subtree at `p` is a single colour. */
  predicate LeafAt(c: Tree, p: seq<string>) {
    Get(c, p).Some? && Get(c, p).value.Leaf?
  }

  /** The colour at a path known to hold one. */
  function ColorAt(c: Tree, p: seq<string>): Tree
    requires LeafAt(c, p)
  {
    Get(c, p).value
  }

  /** The five paths the Status Colors literal reads, all holding colours. */
  predicate StatusReadable(c: Tree) {
    && LeafAt(c, ["status", "error", "background"])
    && LeafAt(c, ["status", "success", "background"])
    && LeafAt(c, ["status", "warning", "background"])
    && LeafAt(c, ["status", "info", "background"])
    && LeafAt(c, ["icon", "primary"])
  }

  /** As written, the section shows five inputs keyed and labelled by their top-level names. */
  lemma StatusRendered(c: Tree)
    requires StatusReadable(c)
    ensures Readable(c, StatusColors()) && |RenderSection(Build(c, StatusColors()))| == 5
    ensures forall i :: 0 <= i < 5 ==>
      var it := StatusColors()[i];
      it.Pick? && LeafAt(c, it.from)
      && RenderSection(Build(c, StatusColors()))[i] == ColorInput(it.key, it.key, ColorAt(c, it.from))
  {
    var items := StatusColors();
    forall i | 0 <= i < 5 ensures items[i].Pick? && LeafAt(c, items[i].from) {
      if i == 0 {} else if i == 1 {} else if i == 2 {} else if i == 3 {} else {}
    }
    ReadablePicks(c, items);
    var b := Build(c, items);
    forall i | 0 <= i < 5 ensures b[i] == Entry(items[i].key, ColorAt(c, items[i].from)) {
      BuildAt(c, items, i);
    }
    RenderFlat(b);
  }

  /**
   * Editing the "error" input writes a new top-level colour "error" and leaves the
   * displayed `status.error.background` as it was, so the edit never shows.
   */
  lemma StatusErrorMisaddressed(c: Tree, v: string)
    requires c.Node? && StatusReadable(c) && Lookup(c.entries, "error").None?
    ensures Readable(c, StatusColors()) && |RenderSection(Build(c, StatusColors()))| == 5
    ensures var inp := RenderSection(Build(c, StatusColors()))[0];
      var p := Split(inp.fullKey, '.');
      && p == ["error"]
      && !Addresses(c, inp)
      && SetPath(c, p, v).Some?
      && Get(SetPath(c, p, v).value, ["error"]) == Some(Leaf(v))
      && Get(SetPath(c, p, v).value, ["status", "error", "background"]) == Get(c, ["status", "error", "background"])
  {
    StatusRendered(c);
    SplitNoSeparator("error", '.');
    SetPathGet(c, ["error"], v);
    SetPathIsolation(c, ["error"], v, ["status", "error", "background"]);
  }

  /**
   * Editing the "icon" input replaces the whole `icon` object by a colour string, so the
   * displayed `icon.primary` (and its siblings) are gone.
   */
  lemma StatusIconReplacesObject(c: Tree, v: string)
    requires c.Node? && StatusReadable(c)
    ensures Readable(c, StatusColors()) && |RenderSection(Build(c, StatusColors()))| == 5
    ensures var inp := RenderSection(Build(c, StatusColors()))[4];
      var p := Split(inp.fullKey, '.');
      && p == ["icon"]
      && SetPath(c, p, v).Some?
      && Get(SetPath(c, p, v).value, ["icon"]) == Some(Leaf(v))
      && Get(SetPath(c, p, v).value, ["icon", "primary"]).None?
  {
    StatusRendered(c);
    SplitNoSeparator("icon", '.');
    SetPathGet(c, ["icon"], v);
    GetSplit(SetPath(c, ["icon"], v).value, ["icon"], ["primary"]);
    assert ["icon"] + ["primary"] == ["icon", "primary"];
  }

  /** The section literal with each colour kept under the path it is read from. */
  function StatusColorsMirrored(): seq<Item> {
    [
      Group("status", [
        Group("error", [Pick("background", ["status", "error", "background"])]),
        Group("success", [Pick("background", ["status", "success", "background"])]),
        Group("warning", [Pick("background", ["status", "warning", "background"])]),
        Group("info", [Pick("background", ["status", "info", "background"])])
      ]),
      Group("icon", [Pick("primary", ["icon", "primary"])])
    ]
  }

  lemma StatusColorsMirroredFaithfulFrom2()
    ensures Faithful(StatusColorsMirrored()[0].items, ["status"], 2)
  {
  }

  lemma StatusColorsMirroredFaithful()
    ensures Faithful(StatusColorsMirrored(), [], 0)
  {
    StatusColorsMirroredFaithfulFrom2();
    assert Faithful(StatusColorsMirrored()[0].items, ["status"], 0);
  }

  /**
   * With the mirrored literal, every Status input writes back to the colour it shows: the
   * four status backgrounds and the primary icon colour.
   */
  lemma StatusMirroredWriteBack(c: Tree, i: nat)
    requires c.Node? && WellKeyed(c) && Readable(c, StatusColorsMirrored())
    requires i < |RenderSection(Build(c, StatusColorsMirrored()))|
    ensures Addresses(c, RenderSection(Build(c, StatusColorsMirrored()))[i])
  {
    StatusColorsMirroredFaithful();
    LayoutWriteBack(c, StatusColorsMirrored(), i);
  }

  // ---------------------------------------------------------------------------
  // The Button Colors section

  /** `Object.entries(v)`: an object's own properties, or a string's characters by index. */
  function ObjectEntries(t: Tree): Entries {
    match t
    case Node(es) => es
    case Leaf(s) => seq(|s|, i requires 0 <= i < |s| => Entry(NatToString(i), Leaf([s[i]])))
  }

  /** The inputs of the Button Colors section for `colors.button`. */
  function ButtonInputs(buttons: Tree): seq<ColorInput> {
    TypeInputs(ObjectEntries(buttons))
  }

  /** One block per button type, in key order. */
  function TypeInputs(types: Entries): seq<ColorInput>
    decreases types
  {
    if types == [] then []
    else KeyInputs(types[0].key, ObjectEntries(types[0].value)) + TypeInputs(types[1..])
  }

  function KeyInputs(buttonType: string, es: Entries): seq<ColorInput>
    decreases es
  {
    if es == [] then []
    else KeyInput(buttonType, es[0].key, es[0].value) + KeyInputs(buttonType, es[1..])
  }

  /**
   * A colour of a button type is one input keyed `button.<type>.<key>`; an object is
   * expanded exactly one level, into inputs keyed `button.<type>.<key>.<nested>` and labelled
   * `<key> <nested>`, whatever the nested values are.
   */
  function KeyInput(buttonType: string, key: string, value: Tree): seq<ColorInput> {
    match value
    case Leaf(_) => [ColorInput("button." + buttonType + "." + key, key, value)]
    case Node(ns) =>
      seq(|ns|, i requires 0 <= i < |ns| =>
        ColorInput("button." + buttonType + "." + key + "." + ns[i].key, key + " " + ns[i].key, ns[i].value))
  }

  /** The button colours are an object of objects, one per button type. */
  predicate ButtonsShaped(buttons: Tree) {
    buttons.Node? && forall i :: 0 <= i < |buttons.entries| ==> buttons.entries[i].value.Node?
  }

  /** The dotted keys built by hand are the dotted forms of their paths. */
  lemma ButtonKeys(t: string, k: string, n: string)
    ensures "button." + t + "." + k == Join(["button", t, k], '.')
    ensures "button." + t + "." + k + "." + n == Join(["button", t, k, n], '.')
  {
    var p3, p4 := ["button", t, k], ["button", t, k, n];
    assert p3[1..] == [t, k] && p3[1..][1..] == [k];
    assert p4[1..] == [t, k, n] && p4[1..][1..] == [k, n] && p4[1..][1..][1..] == [n];
    assert Join([k], '.') == k;
    assert Join([t, k], '.') == t + ['.'] + k;
    assert Join(p3, '.') == "button" + ['.'] + Join([t, k], '.');
    assert Join([n], '.') == n;
    assert Join([k, n], '.') == k + ['.'] + n;
    assert Join([t, k, n], '.') == t + ['.'] + Join([k, n], '.');
    assert Join(p4, '.') == "button" + ['.'] + Join([t, k, n], '.');
    assert "button." == "button" + ['.'];
  }

  /** An input for one key of a button type shows what sits at the path its key spells. */
  lemma KeyInputAddress(c: Tree, t: string, k: string, v: Tree, inp: ColorInput)
    requires PlainKey(t) && PlainKey(k) && WellKeyed(v) && inp in KeyInput(t, k, v)
    requires Get(c, ["button", t, k]) == Some(v)
    ensures var p := Split(inp.fullKey, '.');
      && (|p| == 3 || |p| == 4) && p[0] == "button" && p[1] == t
      && Get(c, p) == Some(inp.value)
      && (|p| == 3 ==> inp.labelText == p[2])
      && (|p| == 4 ==> inp.labelText == p[2] + " " + p[3])
  {
    match v
    case Leaf(_) =>
      ButtonKeys(t, k, "");
      SplitJoin(["button", t, k], '.');
    case Node(ns) =>
      var i :| 0 <= i < |ns| && inp == KeyInput(t, k, v)[i];
      var n := ns[i].key;
      LookupOwnKey(ns, i);
      GetSuffix(ns, i);
      ButtonKeys(t, k, n);
      SplitJoin(["button", t, k, n], '.');
      GetSplit(c, ["button", t, k], [n]);
      assert ["button", t, k] + [n] == ["button", t, k, n];
      assert [n][1..] == [];
  }

  /** What an input of one button type shows sits at the path its key spells. */
  lemma {:induction false} KeyInputsAddress(c: Tree, t: string, es: Entries, j: nat, inp: ColorInput)
    requires PlainKey(t) && WellKeyedEntries(es) && j <= |es| && inp in KeyInputs(t, es[j..])
    requires Get(c, ["button", t]) == Some(Node(es))
    ensures var p := Split(inp.fullKey, '.');
      && (|p| == 3 || |p| == 4) && p[0] == "button" && p[1] == t
      && Get(c, p) == Some(inp.value)
      && (|p| == 3 ==> inp.labelText == p[2])
      && (|p| == 4 ==> inp.labelText == p[2] + " " + p[3])
    decreases |es| - j
  {
    assert es[j..][0] == es[j] && es[j..][1..] == es[j + 1..];
    var k, v := es[j].key, es[j].value;
    if inp in KeyInput(t, k, v) {
      GetSuffix(es, j);
      LookupOwnKey(es, j);
      GetSplit(c, ["button", t], [k]);
      assert ["button", t] + [k] == ["button", t, k];
      assert [k][1..] == [];
      KeyInputAddress(c, t, k, v, inp);
    } else {
      KeyInputsAddress(c, t, es, j + 1, inp);
    }
  }

  /** The keys of a well-keyed object are plain. */
  lemma {:induction false} GetSuffix(es: Entries, i: nat)
    requires WellKeyedEntries(es) && i < |es|
    ensures PlainKey(es[i].key) && WellKeyed(es[i].value)
    decreases es
  {
    if i > 0 {
      assert es[i] == es[1..][i - 1];
      GetSuffix(es[1..], i - 1);
    }
  }

  /**
   * Every input of the Button Colors section is keyed `button.<type>.<key>` or, for exactly
   * one nested level, `button.<type>.<key>.<nested>`, and that key leads in the colours to
   * the value the input shows.
   */
  lemma {:induction false} ButtonInputsAddress(c: Tree, buttons: Tree, inp: ColorInput)
    requires c.Node? && WellKeyed(c) && Lookup(c.entries, "button") == Some(buttons)
    requires ButtonsShaped(buttons) && inp in ButtonInputs(buttons)
    ensures var p := Split(inp.fullKey, '.');
      && (|p| == 3 || |p| == 4) && p[0] == "button"
      && Get(c, p) == Some(inp.value)
      && (|p| == 3 ==> inp.labelText == p[2])
      && (|p| == 4 ==> inp.labelText == p[2] + " " + p[3])
  {
    LookupWellKeyed(c.entries, "button");
    TypeInputsAddress(c, buttons.entries, 0, inp);
  }

  lemma {:induction false} TypeInputsAddress(c: Tree, types: Entries, j: nat, inp: ColorInput)
    requires c.Node? && Lookup(c.entries, "button") == Some(Node(types))
    requires WellKeyedEntries(types) && j <= |types| && inp in TypeInputs(types[j..])
    requires forall i :: 0 <= i < |types| ==> types[i].value.Node?
    ensures var p := Split(inp.fullKey, '.');
      && (|p| == 3 || |p| == 4) && p[0] == "button"
      && Get(c, p) == Some(inp.value)
      && (|p| == 3 ==> inp.labelText == p[2])
      && (|p| == 4 ==> inp.labelText == p[2] + " " + p[3])
    decreases |types| - j
  {
    var t := types[j].key;
    assert types[j..][0] == types[j] && types[j..][1..] == types[j + 1..];
    if inp in KeyInputs(t, ObjectEntries(types[j].value)) {
      var es := types[j].value.entries;
      GetSuffix(types, j);
      LookupOwnKey(types, j);
      assert Get(c, ["button", t]) == Some(Node(es)) by {
        assert ["button", t][0] == "button" && ["button", t][1..] == [t];
        assert Get(Node(types), [t]) == Some(Node(es)) by {
          assert [t][0] == t && [t][1..] == [];
        }
      }
      assert es[0..] == es;
      KeyInputsAddress(c, t, es, 0, inp);
    } else {
      TypeInputsAddress(c, types, j + 1, inp);
    }
  }
}
