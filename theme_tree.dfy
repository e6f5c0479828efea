/**
 * A theme's colours as a tree: a leaf holds one colour string, a node holds its named
 * children in key-insertion order (the order `Object.entries` reports and the editor shows).
 * This module holds the value-level reading of the colour editor: looking up a dotted path,
 * what `handleColorChange` computes, and how `ColorSection` flattens a subtree into inputs.
 */
module ThemeTree {
  import opened Wrappers
  import opened Strings

  datatype Tree = Leaf(color: string) | Node(entries: seq<Entry>)

  /** One property of an object: its key and its value. */
  datatype Entry = Entry(key: string, value: Tree)

  type Entries = seq<Entry>

  function Keys(es: Entries): (r: seq<string>)
    ensures |r| == |es| && forall i :: 0 <= i < |es| ==> r[i] == es[i].key
  {
    if es == [] then [] else [es[0].key] + Keys(es[1..])
  }

  /** `obj[k]` on an object: the value under the first entry with key `k`, if any. */
  function Lookup(es: Entries, k: string): Option<Tree> {
    if es == [] then None
    else if es[0].key == k then Some(es[0].value)
    else Lookup(es[1..], k)
  }

  /** A key is found exactly when it is one of the object's keys, and then with its value. */
  lemma {:induction false} LookupFound(es: Entries, k: string)
    ensures Lookup(es, k).Some? <==> k in Keys(es)
    ensures Lookup(es, k).Some? ==> exists i :: 0 <= i < |es| && es[i] == Entry(k, Lookup(es, k).value)
  {
    if es != [] {
      assert Keys(es) == [es[0].key] + Keys(es[1..]);
      if es[0].key != k {
        LookupFound(es[1..], k);
        if Lookup(es, k).Some? {
          var i :| 0 <= i < |es[1..]| && es[1..][i] == Entry(k, Lookup(es, k).value);
          assert es[i + 1] == es[1..][i];
        }
      }
    }
  }

  /**
   * `obj[k] = t`: an existing key keeps its position and gets the new value; a new key is
   * appended at the end, as JavaScript orders string keys by insertion.
   */
  function Put(es: Entries, k: string, t: Tree): (r: Entries)
    ensures |r| >= 1
  {
    if es == [] then [Entry(k, t)]
    else if es[0].key == k then [Entry(k, t)] + es[1..]
    else [es[0]] + Put(es[1..], k, t)
  }

  lemma {:induction false} PutLookup(es: Entries, k: string, t: Tree, k': string)
    ensures Lookup(Put(es, k, t), k') == if k' == k then Some(t) else Lookup(es, k')
  {
    if es != [] && es[0].key != k {
      PutLookup(es[1..], k, t, k');
      assert Put(es, k, t)[1..] == Put(es[1..], k, t);
    } else if es != [] {
      assert Put(es, k, t)[1..] == es[1..];
    }
  }

  lemma {:induction false} PutKeys(es: Entries, k: string, t: Tree)
    ensures k in Keys(es) ==> Keys(Put(es, k, t)) == Keys(es)
    ensures k !in Keys(es) ==> Put(es, k, t) == es + [Entry(k, t)]
  {
    if es != [] {
      assert Keys(es) == [es[0].key] + Keys(es[1..]);
      if es[0].key != k {
        PutKeys(es[1..], k, t);
        assert Keys(Put(es, k, t)) == [es[0].key] + Keys(Put(es[1..], k, t));
        assert es == [es[0]] + es[1..];
      } else {
        assert Keys(Put(es, k, t)) == [k] + Keys(es[1..]);
      }
    }
  }

  /** The subtree at a path of keys, following `obj[k]` one key at a time. */
  function Get(t: Tree, p: seq<string>): Option<Tree>
    decreases p
  {
    if p == [] then Some(t)
    else match t
      case Leaf(_) => None
      case Node(es) =>
        match Lookup(es, p[0])
        case None => None
        case Some(child) => Get(child, p[1..])
  }

  /**
   * What `handleColorChange` computes for the key path `p` (never empty: `split` always
   * returns a piece): every key but the last must lead to an object, otherwise the walk
   * reads a property of `undefined` or assigns to a primitive and throws (None); the last
   * key is then assigned the colour.
   */
  function SetPath(t: Tree, p: seq<string>, v: string): Option<Tree>
    requires |p| >= 1
    decreases p
  {
    match t
    case Leaf(_) => None
    case Node(es) =>
      if |p| == 1 then Some(Node(Put(es, p[0], Leaf(v))))
      else match Lookup(es, p[0])
        case None => None
        case Some(child) =>
          match SetPath(child, p[1..], v)
          case None => None
          case Some(c) => Some(Node(Put(es, p[0], c)))
  }

  predicate IsPrefix(a: seq<string>, b: seq<string>) {
    |a| <= |b| && b[..|a|] == a
  }

  /** The write succeeds exactly when the path minus its last key leads to an object. */
  lemma {:induction false} SetPathDefined(t: Tree, p: seq<string>, v: string)
    requires |p| >= 1
    ensures SetPath(t, p, v).Some? <==> Get(t, p[..|p| - 1]).Some? && Get(t, p[..|p| - 1]).value.Node?
    decreases p
  {
    if t.Node? && |p| > 1 {
      assert p[..|p| - 1][1..] == p[1..][..|p| - 2];
      match Lookup(t.entries, p[0])
      case None =>
      case Some(child) => SetPathDefined(child, p[1..], v);
    }
  }

  /** After a successful write the path holds the new colour. */
  lemma {:induction false} SetPathGet(t: Tree, p: seq<string>, v: string)
    requires |p| >= 1 && SetPath(t, p, v).Some?
    ensures Get(SetPath(t, p, v).value, p) == Some(Leaf(v))
    decreases p
  {
    var es := t.entries;
    if |p| > 1 {
      var child := Lookup(es, p[0]).value;
      SetPathGet(child, p[1..], v);
      PutLookup(es, p[0], SetPath(child, p[1..], v).value, p[0]);
    } else {
      PutLookup(es, p[0], Leaf(v), p[0]);
    }
  }

  /** The object the last key lives in gains or overwrites exactly that key. */
  lemma {:induction false} SetPathParent(t: Tree, p: seq<string>, v: string)
    requires |p| >= 1 && SetPath(t, p, v).Some?
    ensures Get(t, p[..|p| - 1]).Some? && Get(t, p[..|p| - 1]).value.Node?
    ensures Get(SetPath(t, p, v).value, p[..|p| - 1])
         == Some(Node(Put(Get(t, p[..|p| - 1]).value.entries, p[|p| - 1], Leaf(v))))
    decreases p
  {
    SetPathDefined(t, p, v);
    if |p| > 1 {
      assert p[..|p| - 1][1..] == p[1..][..|p| - 2];
      assert p[1..][|p| - 2] == p[|p| - 1];
      var child := Lookup(t.entries, p[0]).value;
      SetPathParent(child, p[1..], v);
      PutLookup(t.entries, p[0], SetPath(child, p[1..], v).value, p[0]);
    }
  }

  /**
   * Isolation: a path that neither lies on the written path nor runs through it reads
   * the same before and after the write.
   */
  lemma {:induction false} SetPathIsolation(t: Tree, p: seq<string>, v: string, q: seq<string>)
    requires |p| >= 1 && SetPath(t, p, v).Some?
    requires !IsPrefix(p, q) && !IsPrefix(q, p)
    ensures Get(SetPath(t, p, v).value, q) == Get(t, q)
    decreases p
  {
    var es := t.entries;
    if q[0] == p[0] && |p| > 1 {
      if |p| <= |q| {
        assert q[1..][..|p| - 1] == q[..|p|][1..];
        assert q[..|p|] == [q[0]] + q[..|p|][1..];
      }
      if |q| <= |p| {
        assert p[1..][..|q| - 1] == p[..|q|][1..];
        assert p[..|q|] == [p[0]] + p[..|q|][1..];
      }
      var child := Lookup(es, p[0]).value;
      SetPathIsolation(child, p[1..], v, q[1..]);
      PutLookup(es, p[0], SetPath(child, p[1..], v).value, q[0]);
    } else if q[0] == p[0] {
      assert false;
    } else if |p| > 1 {
      PutLookup(es, p[0], SetPath(Lookup(es, p[0]).value, p[1..], v).value, q[0]);
    } else {
      PutLookup(es, p[0], Leaf(v), q[0]);
    }
  }

  /** Every other leaf keeps its colour. */
  lemma LeafIsolation(t: Tree, p: seq<string>, v: string, q: seq<string>)
    requires |p| >= 1 && SetPath(t, p, v).Some?
    requires Get(t, q).Some? && Get(t, q).value.Leaf?
    requires q != p && !IsPrefix(p, q)
    ensures Get(SetPath(t, p, v).value, q) == Get(t, q)
  {
    if IsPrefix(q, p) {
      SetPathDefined(t, p, v);
      GetPrefixOfNode(t, q, p[..|p| - 1]);
      assert false;
    }
    SetPathIsolation(t, p, v, q);
  }

  /** Only objects have anything below them. */
  lemma {:induction false} GetPrefixOfNode(t: Tree, q: seq<string>, r: seq<string>)
    requires IsPrefix(q, r) && |q| < |r| + 1
    requires Get(t, q).Some? && Get(t, q).value.Leaf?
    requires Get(t, r).Some? && Get(t, r).value.Node?
    ensures false
    decreases q
  {
    if q == [] {
    } else {
      assert r[1..][..|q| - 1] == q[1..];
      GetPrefixOfNode(Lookup(t.entries, q[0]).value, q[1..], r[1..]);
    }
  }

  // ---------------------------------------------------------------------------
  // Flattening a section for display (ColorSection.renderColorInput)

  /** One rendered ColorInput: the key its onChange writes to, its label and its value. */
  datatype ColorInput = ColorInput(fullKey: string, labelText: string, value: Tree)

  /** `parentKey ? parentKey + "." + key : key`. */
  function FullKey(parentKey: string, key: string): string {
    if parentKey == "" then key else parentKey + "." + key
  }

  /** `renderColorInput(key, value, parentKey)`: objects are expanded, anything else is one input. */
  function RenderColorInput(key: string, value: Tree, parentKey: string): seq<ColorInput>
    decreases value
  {
    match value
    case Leaf(_) => [ColorInput(FullKey(parentKey, key), key, value)]
    case Node(es) => RenderEntries(es, FullKey(parentKey, key))
  }

  /** `Object.entries(obj).map(([k, v]) => renderColorInput(k, v, parentKey))`, flattened. */
  function RenderEntries(es: Entries, parentKey: string): seq<ColorInput>
    decreases es
  {
    if es == [] then []
    else
      RenderColorInput(es[0].key, es[0].value, parentKey) + RenderEntries(es[1..], parentKey)
  }

  /** A section as ColorSection renders it: the entries of its `colors` object at top level. */
  function RenderSection(colors: Entries): seq<ColorInput> {
    RenderEntries(colors, "")
  }

  /** Keys that survive a round trip through a dotted path: non-empty and free of '.'. */
  predicate PlainKey(k: string) {
    k != "" && '.' !in k
  }

  /** Every key plain, and the keys of each object pairwise distinct (as object keys are). */
  predicate WellKeyed(t: Tree)
    decreases t
  {
    match t
    case Leaf(_) => true
    case Node(es) => WellKeyedEntries(es)
  }

  predicate WellKeyedEntries(es: Entries)
    decreases es
  {
    if es == [] then true
    else
      PlainKey(es[0].key) && es[0].key !in Keys(es[1..]) && WellKeyed(es[0].value) && WellKeyedEntries(es[1..])
  }

  /**
   * The leaves of an object in display order, each with the path of keys leading to it:
   * an independent, path-based description of what the flattening visits.
   */
  function LeafPaths(es: Entries): seq<(seq<string>, string)>
    decreases es
  {
    if es == [] then []
    else
      LeafPathsOf(es[0].key, es[0].value) + LeafPaths(es[1..])
  }

  function LeafPathsOf(k: string, t: Tree): seq<(seq<string>, string)>
    decreases t
  {
    match t
    case Leaf(c) => [([k], c)]
    case Node(es) =>
      var sub := LeafPaths(es);
      seq(|sub|, i requires 0 <= i < |sub| => ([k] + sub[i].0, sub[i].1))
  }

  /** The display record for a leaf reached by `path` below the parent path `pp`. */
  function InputFor(pp: seq<string>, path: seq<string>, c: string): ColorInput
    requires |path| >= 1
  {
    ColorInput(Join(pp + path, '.'), path[|path| - 1], Leaf(c))
  }

  function ParentKey(pp: seq<string>): string {
    if pp == [] then "" else Join(pp, '.')
  }

  predicate PlainPath(pp: seq<string>) {
    forall i :: 0 <= i < |pp| ==> PlainKey(pp[i])
  }

  /**
   * Flattening emits one input per leaf, in key-insertion order; the input's key is the
   * dot-joined path from the section root and its label is the last key of that path.
   */
  lemma {:induction false} RenderEntriesIsLeafPaths(es: Entries, pp: seq<string>)
    requires WellKeyedEntries(es) && PlainPath(pp)
    ensures var ls := LeafPaths(es);
      && (forall i :: 0 <= i < |ls| ==> |ls[i].0| >= 1)
      && RenderEntries(es, ParentKey(pp))
         == seq(|ls|, i requires 0 <= i < |ls| && |ls[i].0| >= 1 => InputFor(pp, ls[i].0, ls[i].1))
    decreases es
  {
    if es != [] {
      RenderOneIsLeafPaths(es[0].key, es[0].value, pp);
      RenderEntriesIsLeafPaths(es[1..], pp);
    }
  }

  lemma {:induction false} RenderOneIsLeafPaths(k: string, t: Tree, pp: seq<string>)
    requires PlainKey(k) && WellKeyed(t) && PlainPath(pp)
    ensures var ls := LeafPathsOf(k, t);
      && (forall i :: 0 <= i < |ls| ==> |ls[i].0| >= 1)
      && RenderColorInput(k, t, ParentKey(pp))
         == seq(|ls|, i requires 0 <= i < |ls| && |ls[i].0| >= 1 => InputFor(pp, ls[i].0, ls[i].1))
    decreases t
  {
    ParentKeyExtends(pp, k);
    match t
    case Leaf(c) =>
    case Node(es) =>
      assert PlainPath(pp + [k]) by {
        forall i | 0 <= i < |pp + [k]| ensures PlainKey((pp + [k])[i]) {
          if i < |pp| { assert (pp + [k])[i] == pp[i]; }
        }
      }
      RenderEntriesIsLeafPaths(es, pp + [k]);
      var sub := LeafPaths(es);
      var ls := LeafPathsOf(k, t);
      assert |ls| == |sub|;
      var lhs := RenderColorInput(k, t, ParentKey(pp));
      assert lhs == RenderEntries(es, ParentKey(pp + [k]));
      forall i | 0 <= i < |sub|
        ensures |ls[i].0| >= 1 && lhs[i] == InputFor(pp, ls[i].0, ls[i].1)
      {
        assert ls[i] == ([k] + sub[i].0, sub[i].1);
        assert pp + [k] + sub[i].0 == pp + ([k] + sub[i].0);
      }
  }

  lemma {:induction false} ParentKeyExtends(pp: seq<string>, k: string)
    requires PlainPath(pp) && PlainKey(k)
    ensures FullKey(ParentKey(pp), k) == Join(pp + [k], '.')
    ensures ParentKey(pp + [k]) == Join(pp + [k], '.')
  {
    if pp != [] {
      JoinSnoc(pp, k);
      JoinNonEmpty(pp);
    }
  }

  lemma {:induction false} JoinSnoc(pp: seq<string>, k: string)
    requires |pp| >= 1
    ensures Join(pp + [k], '.') == Join(pp, '.') + "." + k
  {
    if |pp| > 1 {
      assert (pp + [k])[1..] == pp[1..] + [k];
      JoinSnoc(pp[1..], k);
    }
  }

  lemma JoinNonEmpty(pp: seq<string>)
    requires |pp| >= 1 && PlainKey(pp[0])
    ensures Join(pp, '.') != ""
  {
  }

  /** Each listed leaf really is at its path (soundness of the path-based description). */
  lemma {:induction false} LeafPathsSound(es: Entries, i: nat)
    requires WellKeyedEntries(es) && i < |LeafPaths(es)|
    ensures Get(Node(es), LeafPaths(es)[i].0) == Some(Leaf(LeafPaths(es)[i].1))
    decreases es
  {
    var head := LeafPathsOf(es[0].key, es[0].value);
    if i < |head| {
      assert LeafPaths(es)[i] == head[i];
      match es[0].value
      case Leaf(c) =>
      case Node(sub) =>
        LeafPathsSound(sub, i);
        assert head[i].0[1..] == LeafPaths(sub)[i].0;
    } else {
      assert LeafPaths(es)[i] == LeafPaths(es[1..])[i - |head|];
      LeafPathsSound(es[1..], i - |head|);
      LeafPathsHeads(es[1..], i - |head|);
    }
  }

  /** Every listed path starts with one of the object's own keys. */
  lemma {:induction false} LeafPathsHeads(es: Entries, i: nat)
    requires i < |LeafPaths(es)|
    ensures |LeafPaths(es)[i].0| >= 1 && LeafPaths(es)[i].0[0] in Keys(es)
    decreases es
  {
    var head := LeafPathsOf(es[0].key, es[0].value);
    assert Keys(es) == [es[0].key] + Keys(es[1..]);
    if i < |head| {
      assert LeafPaths(es)[i] == head[i];
    } else {
      assert LeafPaths(es)[i] == LeafPaths(es[1..])[i - |head|];
      LeafPathsHeads(es[1..], i - |head|);
    }
  }

  /** Every leaf of the object is listed (completeness of the path-based description). */
  lemma {:induction false} LeafPathsComplete(es: Entries, p: seq<string>, c: string)
    requires Get(Node(es), p) == Some(Leaf(c))
    ensures (p, c) in LeafPaths(es)
    decreases es
  {
    var head := LeafPathsOf(es[0].key, es[0].value);
    if es[0].key == p[0] {
      match es[0].value
      case Leaf(c0) =>
        assert p[1..] == [];
        assert p == [p[0]];
        assert head[0] == (p, c);
      case Node(sub) =>
        LeafPathsComplete(sub, p[1..], c);
        var j :| 0 <= j < |LeafPaths(sub)| && LeafPaths(sub)[j] == (p[1..], c);
        assert head[j] == ([p[0]] + p[1..], c);
        assert [p[0]] + p[1..] == p;
    } else {
      LeafPathsComplete(es[1..], p, c);
    }
    assert LeafPaths(es) == head + LeafPaths(es[1..]);
  }

  // ---------------------------------------------------------------------------
  // Sections whose object copies parts of the theme tree

  /**
   * `s` mirrors the object `te`: each of its keys is a key of `te`, and under it sits
   * either the very same leaf or an object that again mirrors the one in `te`.
   */
  predicate MirrorsEntries(s: Entries, te: Entries)
    decreases s
  {
    if s == [] then true
    else
      Lookup(te, s[0].key).Some? && Mirrors(s[0].value, Lookup(te, s[0].key).value) && MirrorsEntries(s[1..], te)
  }

  predicate Mirrors(x: Tree, y: Tree)
    decreases x
  {
    match x
    case Leaf(_) => y == x
    case Node(xs) => y.Node? && MirrorsEntries(xs, y.entries)
  }

  /** A mirrored leaf is found at the same path in the theme tree. */
  lemma {:induction false} MirrorsGet(s: Entries, te: Entries, p: seq<string>, c: string)
    requires MirrorsEntries(s, te) && Get(Node(s), p) == Some(Leaf(c))
    ensures Get(Node(te), p) == Some(Leaf(c))
    decreases s
  {
    if s[0].key == p[0] {
      var y := Lookup(te, p[0]).value;
      match s[0].value
      case Leaf(_) =>
      case Node(xs) => MirrorsGet(xs, y.entries, p[1..], c);
    } else {
      MirrorsGet(s[1..], te, p, c);
    }
  }

  /** The input's key, split at '.', leads in `colors` to the very leaf the input shows. */
  predicate Addresses(colors: Tree, inp: ColorInput) {
    inp.value.Leaf? && Get(colors, Split(inp.fullKey, '.')) == Some(inp.value)
  }

  /** The `i`-th rendered input of a section, read off the section's leaf paths. */
  lemma RenderedAt(section: Entries, i: nat)
    requires WellKeyedEntries(section) && i < |RenderSection(section)|
    ensures i < |LeafPaths(section)|
    ensures var path := LeafPaths(section)[i].0;
      && |path| >= 1
      && RenderSection(section)[i].fullKey == Join(path, '.')
      && RenderSection(section)[i].labelText == path[|path| - 1]
      && RenderSection(section)[i].value == Leaf(LeafPaths(section)[i].1)
  {
    var ls := LeafPaths(section);
    assert PlainPath([]);
    RenderEntriesIsLeafPaths(section, []);
    assert ParentKey([]) == "";
    assert RenderSection(section) == RenderEntries(section, "");
    var path := ls[i].0;
    assert [] + path == path;
    assert RenderSection(section)[i] == InputFor([], path, ls[i].1);
  }

  /** A plain path survives joining and splitting at '.'. */
  lemma PlainRoundTrip(path: seq<string>)
    requires |path| >= 1 && PlainPath(path)
    ensures Split(Join(path, '.'), '.') == path
  {
    SplitJoin(path, '.');
  }

  /**
   * Write-back: for a section that mirrors the theme tree, every rendered input addresses
   * the leaf it shows, and its label is the last key of its path.
   */
  lemma SectionWriteBack(section: Entries, colors: Tree, i: nat)
    requires WellKeyedEntries(section) && colors.Node? && MirrorsEntries(section, colors.entries)
    requires i < |RenderSection(section)|
    ensures Addresses(colors, RenderSection(section)[i])
    ensures var p := Split(RenderSection(section)[i].fullKey, '.');
      |p| >= 1 && RenderSection(section)[i].labelText == p[|p| - 1]
  {
    RenderedAt(section, i);
    var path, c := LeafPaths(section)[i].0, LeafPaths(section)[i].1;
    LeafPathsPlain(section, i);
    PlainRoundTrip(path);
    LeafPathsSound(section, i);
    MirrorsGet(section, colors.entries, path, c);
    assert colors == Node(colors.entries);
  }

  /**
   * An input that addresses its leaf writes back through `handleColorChange`: the write
   * succeeds, the shown leaf takes the new colour and every other leaf keeps its own.
   */
  lemma AddressedWrite(colors: Tree, inp: ColorInput, v: string)
    requires Addresses(colors, inp)
    ensures var p := Split(inp.fullKey, '.');
      && SetPath(colors, p, v).Some?
      && Get(SetPath(colors, p, v).value, p) == Some(Leaf(v))
      && forall q :: q != p && Get(colors, q).Some? && Get(colors, q).value.Leaf? ==>
           Get(SetPath(colors, p, v).value, q) == Get(colors, q)
  {
    var p := Split(inp.fullKey, '.');
    SetPathDefinedAtLeaf(colors, p, inp.value.color, v);
    SetPathGet(colors, p, v);
    forall q | q != p && Get(colors, q).Some? && Get(colors, q).value.Leaf?
      ensures Get(SetPath(colors, p, v).value, q) == Get(colors, q)
    {
      if IsPrefix(p, q) {
        var rest := q[|p|..];
        assert q == p + rest;
        GetSplit(colors, p, rest);
        assert false;
      } else {
        LeafIsolation(colors, p, v, q);
      }
    }
  }

  /** Every key along a listed path is plain. */
  lemma {:induction false} LeafPathsPlain(es: Entries, i: nat)
    requires WellKeyedEntries(es) && i < |LeafPaths(es)|
    ensures |LeafPaths(es)[i].0| >= 1 && PlainPath(LeafPaths(es)[i].0)
    decreases es
  {
    var head := LeafPathsOf(es[0].key, es[0].value);
    if i < |head| {
      assert LeafPaths(es)[i] == head[i];
      match es[0].value
      case Leaf(c) =>
      case Node(sub) => LeafPathsPlain(sub, i);
    } else {
      assert LeafPaths(es)[i] == LeafPaths(es[1..])[i - |head|];
      LeafPathsPlain(es[1..], i - |head|);
    }
  }

  /** Writing to the path of an existing leaf always succeeds. */
  lemma SetPathDefinedAtLeaf(t: Tree, p: seq<string>, c: string, v: string)
    requires |p| >= 1 && Get(t, p) == Some(Leaf(c))
    ensures SetPath(t, p, v).Some?
  {
    GetSplit(t, p[..|p| - 1], [p[|p| - 1]]);
    assert p[..|p| - 1] + [p[|p| - 1]] == p;
    SetPathDefined(t, p, v);
  }

  /** Reading along `a + b` is reading along `a`, then along `b`. */
  lemma {:induction false} GetSplit(t: Tree, a: seq<string>, b: seq<string>)
    ensures Get(t, a + b) == match Get(t, a) case None => None case Some(u) => Get(u, b)
    decreases a
  {
    if a != [] {
      assert (a + b)[0] == a[0] && (a + b)[1..] == a[1..] + b;
      if t.Node? && Lookup(t.entries, a[0]).Some? {
        GetSplit(Lookup(t.entries, a[0]).value, a[1..], b);
      }
    } else {
      assert a + b == b;
    }
  }
}
