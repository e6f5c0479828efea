/**
 * The sections of the theme editor. Each `ColorSection` is handed an object literal built
 * from the colour tree (`{ primary: colors.primary, overlay: { background:
 * colors.overlay.background, ... } }`) and flattens it into inputs whose keys are written
 * back through `handleColorChange`. A literal is described here by a layout: per key,
 * either the path it is read from or a nested group. Whether the written keys address
 * the displayed leaves depends only on whether the layout reads every key from the path
 * it is displayed under.
 */
module ThemeSections {
  import opened Wrappers
  import opened Strings
  import opened ThemeTree

  // ---------------------------------------------------------------------------
  // Layouts of section literals

  /** One property of a section literal: `key: colors.<from>` or `key: { ...items }`. */
  datatype Item = Pick(key: string, from: seq<string>) | Group(key: string, items: seq<Item>)

  function ItemKeys(items: seq<Item>): (r: seq<string>)
    ensures |r| == |items| && forall i :: 0 <= i < |items| ==> r[i] == items[i].key
  {
    if items == [] then [] else [items[0].key] + ItemKeys(items[1..])
  }

  /** Every path the literal reads exists in the colours. */
  predicate Readable(c: Tree, items: seq<Item>)
    decreases items
  {
    if items == [] then true
    else ReadableItem(c, items[0]) && Readable(c, items[1..])
  }

  predicate ReadableItem(c: Tree, it: Item)
    decreases it
  {
    match it
    case Pick(_, from) => Get(c, from).Some?
    case Group(_, its) => Readable(c, its)
  }

  /** Evaluating the literal against the colours `c`. */
  function Build(c: Tree, items: seq<Item>): (r: Entries)
    requires Readable(c, items)
    ensures |r| == |items| && forall i :: 0 <= i < |items| ==> r[i].key == items[i].key
    decreases items
  {
    if items == [] then []
    else [Entry(items[0].key, BuildItem(c, items[0]))] + Build(c, items[1..])
  }

  function BuildItem(c: Tree, it: Item): Tree
    requires ReadableItem(c, it)
    decreases it
  {
    match it
    case Pick(_, from) => Get(c, from).value
    case Group(_, its) => Node(Build(c, its))
  }

  /** No item from index `j` on has the key `key`. */
  predicate KeyAbsent(items: seq<Item>, key: string, j: nat)
    decreases |items| - j
  {
    j >= |items| || (items[j].key != key && KeyAbsent(items, key, j + 1))
  }

  /**
   * The items from index `j` on copy the tree below `pp`: each picked key is read from `pp`
   * followed by that key, each group is a non-empty copy of the object at `pp` followed by
   * its key, and sibling keys are plain and distinct.
   */
  predicate Faithful(items: seq<Item>, pp: seq<string>, j: nat)
    decreases items, |items| - j
  {
    j >= |items| ||
      (FaithfulItem(items[j], pp) && KeyAbsent(items, items[j].key, j + 1) && Faithful(items, pp, j + 1))
  }

  predicate FaithfulItem(it: Item, pp: seq<string>)
    decreases it
  {
    && PlainKey(it.key)
    && match it
       case Pick(k, from) => from == pp + [k]
       case Group(k, its) => its != [] && Faithful(its, pp + [k], 0)
  }

  lemma {:induction false} KeyAbsentAll(items: seq<Item>, key: string, j: nat)
    requires KeyAbsent(items, key, j)
    ensures forall m :: j <= m < |items| ==> items[m].key != key
    decreases |items| - j
  {
    if j < |items| {
      KeyAbsentAll(items, key, j + 1);
    }
  }

  // ---------------------------------------------------------------------------
  // Subtrees of well-keyed trees

  /** What lies at a path of a well-keyed tree is well keyed. */
  lemma {:induction false} GetWellKeyed(t: Tree, p: seq<string>)
    requires WellKeyed(t) && Get(t, p).Some?
    ensures WellKeyed(Get(t, p).value)
    decreases p
  {
    if p != [] {
      var child := Lookup(t.entries, p[0]).value;
      LookupWellKeyed(t.entries, p[0]);
      GetWellKeyed(child, p[1..]);
    }
  }

  lemma {:induction false} LookupWellKeyed(es: Entries, k: string)
    requires WellKeyedEntries(es) && Lookup(es, k).Some?
    ensures WellKeyed(Lookup(es, k).value)
    decreases es
  {
    if es[0].key != k {
      LookupWellKeyed(es[1..], k);
    }
  }

  /** In a well-keyed object, looking up an entry's key finds that entry's value. */
  lemma {:induction false} LookupOwnKey(es: Entries, i: nat)
    requires WellKeyedEntries(es) && i < |es|
    ensures Lookup(es, es[i].key) == Some(es[i].value)
    decreases es
  {
    if i > 0 {
      assert es[i] == es[1..][i - 1];
      assert es[i].key in Keys(es[1..]);
      LookupOwnKey(es[1..], i - 1);
    }
  }

  /** A well-keyed tree mirrors itself. */
  lemma {:induction false} MirrorsSelf(t: Tree)
    requires WellKeyed(t)
    ensures Mirrors(t, t)
    decreases t
  {
    match t
    case Leaf(_) =>
    case Node(es) =>
      forall i | 0 <= i < |es| ensures Lookup(es, es[i].key) == Some(es[i].value) {
        LookupOwnKey(es, i);
      }
      MirrorsInto(es, es);
  }

  lemma {:induction false} MirrorsInto(s: Entries, te: Entries)
    requires WellKeyedEntries(s)
    requires forall i :: 0 <= i < |s| ==> Lookup(te, s[i].key) == Some(s[i].value)
    ensures MirrorsEntries(s, te)
    decreases s
  {
    if s != [] {
      assert Lookup(te, s[0].key) == Some(s[0].value);
      MirrorsSelf(s[0].value);
      forall i | 0 <= i < |s[1..]| ensures Lookup(te, s[1..][i].key) == Some(s[1..][i].value) {
        assert s[1..][i] == s[i + 1];
      }
      MirrorsInto(s[1..], te);
    }
  }

  /** One key further down: the object at `pp` holds the subtree at `pp + [k]`. */
  lemma GetStep(c: Tree, pp: seq<string>, k: string)
    requires Get(c, pp + [k]).Some?
    ensures Get(c, pp).Some? && Get(c, pp).value.Node?
    ensures Lookup(Get(c, pp).value.entries, k) == Get(c, pp + [k])
  {
    GetSplit(c, pp, [k]);
    if Get(c, pp).Some? {
      var u := Get(c, pp).value;
      assert [k][1..] == [];
    }
  }

  /** A faithful, readable item at `pp` sits on an object of the colours. */
  lemma {:induction false} FaithfulOnObject(c: Tree, it: Item, pp: seq<string>)
    requires FaithfulItem(it, pp) && ReadableItem(c, it)
    ensures Get(c, pp).Some? && Get(c, pp).value.Node?
    decreases it
  {
    match it
    case Pick(k, from) =>
      GetStep(c, pp, k);
    case Group(k, its) =>
      assert Faithful(its, pp + [k], 0) && Readable(c, its);
      FaithfulOnObject(c, its[0], pp + [k]);
      GetStep(c, pp, k);
  }

  /**
   * A faithful layout, evaluated against well-keyed colours, yields a well-keyed object
   * that mirrors the object at `pp`.
   */
  lemma {:induction false} BuildMirrors(c: Tree, items: seq<Item>, pp: seq<string>, j: nat)
    requires WellKeyed(c) && j <= |items| && Faithful(items, pp, j) && Readable(c, items[j..])
    requires Get(c, pp).Some? && Get(c, pp).value.Node?
    ensures WellKeyedEntries(Build(c, items[j..]))
    ensures MirrorsEntries(Build(c, items[j..]), Get(c, pp).value.entries)
    decreases items, |items| - j
  {
    if j < |items| {
      var s := Build(c, items[j..]);
      assert items[j..][0] == items[j] && items[j..][1..] == items[j + 1..];
      BuildMirrors(c, items, pp, j + 1);
      KeyAbsentAll(items, items[j].key, j + 1);
      assert s[1..] == Build(c, items[j + 1..]);
      assert items[j].key !in Keys(s[1..]) by {
        forall m | 0 <= m < |s[1..]| ensures s[1..][m].key != items[j].key {
          assert s[1..][m].key == items[j + 1..][m].key == items[j + 1 + m].key;
        }
      }
      match items[j]
      case Pick(k, from) =>
        GetStep(c, pp, k);
        GetWellKeyed(c, from);
        MirrorsSelf(Get(c, from).value);
      case Group(k, its) =>
        FaithfulOnObject(c, items[j], pp);
        assert Faithful(its, pp + [k], 0) && Readable(c, its);
        FaithfulOnObject(c, its[0], pp + [k]);
        GetStep(c, pp, k);
        assert its[0..] == its;
        BuildMirrors(c, its, pp + [k], 0);
    }
  }

  /**
   * Write-back for a faithful section: every input the section renders carries a key that,
   * split at '.', leads in the colours to the leaf the input displays, and its label is the
   * last key of that path.
   */
  lemma LayoutWriteBack(c: Tree, items: seq<Item>, i: nat)
    requires c.Node? && WellKeyed(c) && Faithful(items, [], 0) && Readable(c, items)
    requires i < |RenderSection(Build(c, items))|
    ensures Addresses(c, RenderSection(Build(c, items))[i])
    ensures var p := Split(RenderSection(Build(c, items))[i].fullKey, '.');
      |p| >= 1 && RenderSection(Build(c, items))[i].labelText == p[|p| - 1]
  {
    assert items[0..] == items;
    BuildMirrors(c, items, [], 0);
    SectionWriteBack(Build(c, items), c, i);
  }

  // ---------------------------------------------------------------------------
  // Literals of single colours

  /** A literal whose items all read an existing path is readable. */
  lemma {:induction false} ReadablePicks(c: Tree, items: seq<Item>)
    requires forall i :: 0 <= i < |items| ==> items[i].Pick? && Get(c, items[i].from).Some?
    ensures Readable(c, items)
    decreases items
  {
    if items != [] {
      assert forall i :: 0 <= i < |items[1..]| ==> items[1..][i] == items[i + 1];
      ReadablePicks(c, items[1..]);
    }
  }

  /** The `i`-th property of the evaluated literal is the `i`-th item evaluated. */
  lemma {:induction false} BuildAt(c: Tree, items: seq<Item>, i: nat)
    requires Readable(c, items) && i < |items|
    ensures ReadableItem(c, items[i]) && Build(c, items)[i] == Entry(items[i].key, BuildItem(c, items[i]))
    decreases items
  {
    if i > 0 {
      BuildAt(c, items[1..], i - 1);
      assert Build(c, items)[i] == Build(c, items[1..])[i - 1];
    }
  }

  /** An object of single colours renders one input per property, in order, keyed and labelled by its key. */
  lemma {:induction false} RenderFlat(es: Entries)
    requires forall i :: 0 <= i < |es| ==> es[i].value.Leaf?
    ensures |RenderEntries(es, "")| == |es|
    ensures forall i :: 0 <= i < |es| ==> RenderEntries(es, "")[i] == ColorInput(es[i].key, es[i].key, es[i].value)
    decreases es
  {
    if es != [] {
      assert forall i :: 0 <= i < |es[1..]| ==> es[1..][i] == es[i + 1];
      RenderFlat(es[1..]);
      assert RenderEntries(es, "") == [ColorInput(es[0].key, es[0].key, es[0].value)] + RenderEntries(es[1..], "");
    }
  }
}
