/**
 * The colour object as JavaScript holds it: a heap of objects, each an ordered list of
 * properties whose values are colour strings or references to other objects. The tree of
 * module ThemeTree is what such an object looks like when read out (`View`); the heap is
 * what shows that `{ ...prev }` copies one level only and that a nested write reaches every
 * object sharing the written child.
 *
 * A reference always points to a smaller address than its owner. Objects are built from
 * the leaves up (a literal is evaluated inside out), so this holds for every heap the
 * editor produces, and it makes every object's view finite.
 */
module ThemeHeap {
  import opened Wrappers
  import opened ThemeTree

  datatype Val = Str(s: string) | Ref(addr: nat)

  type Obj = seq<(string, Val)>

  type Heap = map<nat, Obj>

  /** Every reference in `o` is to an object of `h` below `bound`. */
  predicate RefsBelow(h: Heap, o: Obj, bound: nat) {
    forall i :: 0 <= i < |o| && o[i].1.Ref? ==> o[i].1.addr < bound && o[i].1.addr in h
  }

  predicate Closed(h: Heap) {
    forall a :: a in h ==> RefsBelow(h, h[a], a)
  }

  predicate ValBelow(h: Heap, v: Val, bound: nat) {
    v.Ref? ==> v.addr < bound && v.addr in h
  }

  lemma RefsBelowCons(h: Heap, o: Obj, bound: nat)
    requires o != []
    ensures RefsBelow(h, o, bound) <==> ValBelow(h, o[0].1, bound) && RefsBelow(h, o[1..], bound)
  {
    if ValBelow(h, o[0].1, bound) && RefsBelow(h, o[1..], bound) {
      forall i | 0 <= i < |o| && o[i].1.Ref? ensures o[i].1.addr < bound && o[i].1.addr in h {
        if i > 0 { assert o[i] == o[1..][i - 1]; }
      }
    }
  }

  // ---------------------------------------------------------------------------
  // Reading an object out as a tree, its reachable addresses, and tree shape

  /** The tree an object denotes: its properties in order, references read out recursively. */
  function View(h: Heap, a: nat): Tree
    requires Closed(h) && a in h
    decreases a, 2
  {
    Node(ViewEntries(h, h[a], a))
  }

  function ViewEntries(h: Heap, o: Obj, bound: nat): (r: Entries)
    requires Closed(h) && RefsBelow(h, o, bound)
    ensures |r| == |o| && forall i :: 0 <= i < |o| ==> r[i].key == o[i].0
    decreases bound, 1, |o|
  {
    if o == [] then []
    else
      RefsBelowCons(h, o, bound);
      [Entry(o[0].0, ViewVal(h, o[0].1, bound))] + ViewEntries(h, o[1..], bound)
  }

  function ViewVal(h: Heap, v: Val, bound: nat): Tree
    requires Closed(h) && ValBelow(h, v, bound)
    decreases bound, 0
  {
    match v
    case Str(s) => Leaf(s)
    case Ref(b) => View(h, b)
  }

  /** The addresses an object reaches, itself included. */
  function Reach(h: Heap, a: nat): set<nat>
    requires Closed(h) && a in h
    decreases a, 2
  {
    {a} + ReachEntries(h, h[a], a)
  }

  function ReachEntries(h: Heap, o: Obj, bound: nat): set<nat>
    requires Closed(h) && RefsBelow(h, o, bound)
    decreases bound, 1, |o|
  {
    if o == [] then {}
    else
      RefsBelowCons(h, o, bound);
      ReachVal(h, o[0].1, bound) + ReachEntries(h, o[1..], bound)
  }

  function ReachVal(h: Heap, v: Val, bound: nat): set<nat>
    requires Closed(h) && ValBelow(h, v, bound)
    decreases bound, 0
  {
    match v
    case Str(_) => {}
    case Ref(b) => Reach(h, b)
  }

  /**
   * No object is reached along two different properties: the objects below an object
   * form a tree, as they do for an object literal such as the default colours.
   */
  predicate Shaped(h: Heap, a: nat)
    requires Closed(h) && a in h
    decreases a, 2
  {
    ShapedEntries(h, h[a], a)
  }

  predicate ShapedEntries(h: Heap, o: Obj, bound: nat)
    requires Closed(h) && RefsBelow(h, o, bound)
    decreases bound, 1, |o|
  {
    if o == [] then true
    else
      RefsBelowCons(h, o, bound);
      && ShapedVal(h, o[0].1, bound)
      && ShapedEntries(h, o[1..], bound)
      && ReachVal(h, o[0].1, bound) !! ReachEntries(h, o[1..], bound)
  }

  predicate ShapedVal(h: Heap, v: Val, bound: nat)
    requires Closed(h) && ValBelow(h, v, bound)
    decreases bound, 0
  {
    match v
    case Str(_) => true
    case Ref(b) => Shaped(h, b)
  }

  /** Everything an object reaches lies at or below it. */
  lemma {:induction false} ReachBelow(h: Heap, a: nat)
    requires Closed(h) && a in h
    ensures forall x :: x in Reach(h, a) ==> x <= a && x in h
    decreases a, 2
  {
    ReachEntriesBelow(h, h[a], a);
  }

  lemma {:induction false} ReachEntriesBelow(h: Heap, o: Obj, bound: nat)
    requires Closed(h) && RefsBelow(h, o, bound)
    ensures forall x :: x in ReachEntries(h, o, bound) ==> x < bound && x in h
    decreases bound, 1, |o|
  {
    if o != [] {
      RefsBelowCons(h, o, bound);
      if o[0].1.Ref? {
        ReachBelow(h, o[0].1.addr);
      }
      ReachEntriesBelow(h, o[1..], bound);
    }
  }

  /** The bound only serves termination: it changes nothing about the result. */
  lemma {:induction false} EntriesBound(h: Heap, o: Obj, b1: nat, b2: nat)
    requires Closed(h) && RefsBelow(h, o, b1) && RefsBelow(h, o, b2)
    ensures ViewEntries(h, o, b1) == ViewEntries(h, o, b2)
    ensures ReachEntries(h, o, b1) == ReachEntries(h, o, b2)
    ensures ShapedEntries(h, o, b1) == ShapedEntries(h, o, b2)
    decreases |o|
  {
    if o != [] {
      RefsBelowCons(h, o, b1);
      RefsBelowCons(h, o, b2);
      EntriesBound(h, o[1..], b1, b2);
    }
  }

  /** Two addresses holding the same property list read out the same. */
  lemma SameObj(h: Heap, a: nat, b: nat)
    requires Closed(h) && a in h && b in h && h[a] == h[b]
    ensures View(h, a) == View(h, b) && Shaped(h, a) == Shaped(h, b)
    ensures ReachEntries(h, h[a], a) == ReachEntries(h, h[b], b)
  {
    EntriesBound(h, h[a], a, b);
  }

  /** `h2` holds the same objects as `h` at every address of `s`. */
  predicate AgreeOn(h: Heap, h2: Heap, s: set<nat>) {
    forall x :: x in s ==> x in h && x in h2 && h2[x] == h[x]
  }

  /** Frame: an object reads out the same in any heap that agrees on what it reaches. */
  lemma {:induction false} FrameView(h: Heap, h2: Heap, a: nat)
    requires Closed(h) && Closed(h2) && a in h && AgreeOn(h, h2, Reach(h, a))
    ensures a in h2 && View(h2, a) == View(h, a)
    ensures Reach(h2, a) == Reach(h, a) && Shaped(h2, a) == Shaped(h, a)
    decreases a, 2
  {
    assert a in Reach(h, a);
    FrameEntries(h, h2, h[a], a);
  }

  lemma {:induction false} FrameEntries(h: Heap, h2: Heap, o: Obj, bound: nat)
    requires Closed(h) && Closed(h2) && RefsBelow(h, o, bound)
    requires AgreeOn(h, h2, ReachEntries(h, o, bound))
    ensures RefsBelow(h2, o, bound)
    ensures ViewEntries(h2, o, bound) == ViewEntries(h, o, bound)
    ensures ReachEntries(h2, o, bound) == ReachEntries(h, o, bound)
    ensures ShapedEntries(h2, o, bound) == ShapedEntries(h, o, bound)
    decreases bound, 1, |o|
  {
    if o != [] {
      RefsBelowCons(h, o, bound);
      FrameVal(h, h2, o[0].1, bound);
      FrameEntries(h, h2, o[1..], bound);
      RefsBelowCons(h2, o, bound);
    }
  }

  lemma {:induction false} FrameVal(h: Heap, h2: Heap, v: Val, bound: nat)
    requires Closed(h) && Closed(h2) && ValBelow(h, v, bound)
    requires AgreeOn(h, h2, ReachVal(h, v, bound))
    ensures ValBelow(h2, v, bound)
    ensures ViewVal(h2, v, bound) == ViewVal(h, v, bound)
    ensures ReachVal(h2, v, bound) == ReachVal(h, v, bound)
    ensures ShapedVal(h2, v, bound) == ShapedVal(h, v, bound)
    decreases bound, 0
  {
    if v.Ref? {
      FrameView(h, h2, v.addr);
    }
  }

  // ---------------------------------------------------------------------------
  // Property access on one object

  /** `o[k]`: the value of the first property named `k`. */
  function LookupObj(o: Obj, k: string): (r: Option<Val>)
    ensures r.Some? ==> exists i :: 0 <= i < |o| && o[i] == (k, r.value)
    ensures r.None? ==> forall i :: 0 <= i < |o| ==> o[i].0 != k
  {
    if o == [] then None
    else if o[0].0 == k then Some(o[0].1)
    else
      var r := LookupObj(o[1..], k);
      assert r.Some? ==> exists i :: 0 <= i < |o[1..]| && o[1..][i] == (k, r.value);
      r
  }

  /** `o[k] = w`: an existing property keeps its place, a new one goes last. */
  function PutObj(o: Obj, k: string, w: Val): (r: Obj)
    ensures |r| >= 1
  {
    if o == [] then [(k, w)]
    else if o[0].0 == k then [(k, w)] + o[1..]
    else [o[0]] + PutObj(o[1..], k, w)
  }

  lemma LookupObjBelow(h: Heap, o: Obj, bound: nat, k: string)
    requires RefsBelow(h, o, bound) && LookupObj(o, k).Some?
    ensures ValBelow(h, LookupObj(o, k).value, bound)
  {
  }

  /** Reading a property of the object is reading the key of its view. */
  lemma {:induction false} LookupView(h: Heap, o: Obj, bound: nat, k: string)
    requires Closed(h) && RefsBelow(h, o, bound)
    ensures LookupObj(o, k).None? ==> Lookup(ViewEntries(h, o, bound), k).None?
    ensures LookupObj(o, k).Some? ==>
      && ValBelow(h, LookupObj(o, k).value, bound)
      && Lookup(ViewEntries(h, o, bound), k) == Some(ViewVal(h, LookupObj(o, k).value, bound))
    decreases |o|
  {
    if o != [] {
      RefsBelowCons(h, o, bound);
      if o[0].0 != k {
        LookupView(h, o[1..], bound, k);
      }
    }
  }

  /** What a property holds is reached from the object holding it. */
  lemma {:induction false} LookupReach(h: Heap, o: Obj, bound: nat, k: string, b: nat)
    requires Closed(h) && RefsBelow(h, o, bound) && LookupObj(o, k) == Some(Ref(b))
    ensures b in h && Reach(h, b) <= ReachEntries(h, o, bound)
    decreases |o|
  {
    RefsBelowCons(h, o, bound);
    if o[0].0 != k {
      LookupReach(h, o[1..], bound, k, b);
    }
  }

  lemma {:induction false} PutObjBelow(h: Heap, o: Obj, bound: nat, k: string, w: Val)
    requires RefsBelow(h, o, bound) && ValBelow(h, w, bound)
    ensures RefsBelow(h, PutObj(o, k, w), bound)
    decreases |o|
  {
    if o != [] {
      RefsBelowCons(h, o, bound);
      if o[0].0 == k {
        RefsBelowCons(h, PutObj(o, k, w), bound);
      } else {
        PutObjBelow(h, o[1..], bound, k, w);
        assert PutObj(o, k, w)[1..] == PutObj(o[1..], k, w);
        RefsBelowCons(h, PutObj(o, k, w), bound);
      }
    } else {
      RefsBelowCons(h, PutObj(o, k, w), bound);
    }
  }

  /** Assigning a property of the object is `Put` on its view. */
  lemma {:induction false} PutObjView(h: Heap, o: Obj, bound: nat, k: string, w: Val)
    requires Closed(h) && RefsBelow(h, o, bound) && ValBelow(h, w, bound)
    ensures RefsBelow(h, PutObj(o, k, w), bound)
    ensures ViewEntries(h, PutObj(o, k, w), bound) == Put(ViewEntries(h, o, bound), k, ViewVal(h, w, bound))
    decreases |o|
  {
    PutObjBelow(h, o, bound, k, w);
    var r := PutObj(o, k, w);
    RefsBelowCons(h, r, bound);
    if o != [] {
      RefsBelowCons(h, o, bound);
      if o[0].0 == k {
        assert r[1..] == o[1..];
      } else {
        PutObjView(h, o[1..], bound, k, w);
        assert r[1..] == PutObj(o[1..], k, w);
      }
    }
  }

  /** After writing a colour string, an object reaches no more than it did. */
  lemma {:induction false} PutStrReach(h: Heap, o: Obj, bound: nat, k: string, c: string)
    requires Closed(h) && RefsBelow(h, o, bound)
    ensures RefsBelow(h, PutObj(o, k, Str(c)), bound)
    ensures ReachEntries(h, PutObj(o, k, Str(c)), bound) <= ReachEntries(h, o, bound)
    ensures ShapedEntries(h, o, bound) ==> ShapedEntries(h, PutObj(o, k, Str(c)), bound)
    decreases |o|
  {
    PutObjBelow(h, o, bound, k, Str(c));
    var r := PutObj(o, k, Str(c));
    RefsBelowCons(h, r, bound);
    if o != [] {
      RefsBelowCons(h, o, bound);
      if o[0].0 == k {
        assert r[1..] == o[1..];
      } else {
        PutStrReach(h, o[1..], bound, k, c);
        assert r[1..] == PutObj(o[1..], k, Str(c));
      }
    }
  }

  // ---------------------------------------------------------------------------
  // Walking a key path

  /** The object reached from `a` along `ks`, each key naming an object-valued property. */
  function ObjPath(h: Heap, a: nat, ks: seq<string>): (r: Option<nat>)
    requires Closed(h) && a in h
    ensures r.Some? ==> r.value in h
    decreases ks
  {
    if ks == [] then Some(a)
    else match Child(h, a, ks[0])
      case None => None
      case Some(b) => ObjPath(h, b, ks[1..])
  }

  /** The object a property of `a` refers to, if it refers to one. */
  function Child(h: Heap, a: nat, k: string): (r: Option<nat>)
    requires Closed(h) && a in h
    ensures r.Some? ==> r.value in h && r.value < a
  {
    match LookupObj(h[a], k)
    case Some(Ref(b)) => LookupObjBelow(h, h[a], a, k); Some(b)
    case _ => None
  }

  lemma {:induction false} ObjPathSnoc(h: Heap, a: nat, ks: seq<string>, k: string)
    requires Closed(h) && a in h
    ensures ObjPath(h, a, ks + [k])
         == match ObjPath(h, a, ks) case None => None case Some(t) => Child(h, t, k)
    decreases ks
  {
    if ks == [] {
      assert [] + [k] == [k];
    } else {
      assert (ks + [k])[0] == ks[0] && (ks + [k])[1..] == ks[1..] + [k];
      if Child(h, a, ks[0]).Some? {
        ObjPathSnoc(h, Child(h, a, ks[0]).value, ks[1..], k);
      }
    }
  }

  /** The walk finds an object exactly where the view has an object, and it is that object. */
  lemma {:induction false} ObjPathGet(h: Heap, a: nat, ks: seq<string>)
    requires Closed(h) && a in h
    ensures ObjPath(h, a, ks).Some? ==> Get(View(h, a), ks) == Some(View(h, ObjPath(h, a, ks).value))
    ensures ObjPath(h, a, ks).None? ==> !(Get(View(h, a), ks).Some? && Get(View(h, a), ks).value.Node?)
    decreases ks
  {
    if ks != [] {
      LookupView(h, h[a], a, ks[0]);
      match LookupObj(h[a], ks[0])
      case None =>
      case Some(Str(_)) =>
        assert ks[1..] != [] ==> ks[1..][0] == ks[1];
      case Some(Ref(b)) =>
        ObjPathGet(h, b, ks[1..]);
    }
  }

  /** The walked-to object is reached from where the walk starts. */
  lemma {:induction false} ObjPathReach(h: Heap, a: nat, ks: seq<string>)
    requires Closed(h) && a in h && ObjPath(h, a, ks).Some?
    ensures ObjPath(h, a, ks).value in Reach(h, a)
    ensures ks != [] ==> Child(h, a, ks[0]).Some? && ObjPath(h, a, ks).value in Reach(h, Child(h, a, ks[0]).value)
    decreases ks
  {
    if ks != [] {
      var b := Child(h, a, ks[0]).value;
      LookupReach(h, h[a], a, ks[0], b);
      ObjPathReach(h, b, ks[1..]);
    }
  }

  /**
   * A JavaScript value met by the walk in `handleColorChange`: `undefined`, a string (a
   * primitive: indexing it yields `undefined`, assigning to it throws in strict code) or
   * an object.
   */
  datatype JsVal = Undefined | Prim(s: string) | JsObj(addr: nat)

  predicate InHeap(h: Heap, v: JsVal) {
    v.JsObj? ==> v.addr in h
  }

  /** `target[k]`; None is the TypeError that reading a property of `undefined` throws. */
  function ReadProp(h: Heap, target: JsVal, k: string): (r: Option<JsVal>)
    requires Closed(h) && InHeap(h, target)
    ensures r.Some? ==> InHeap(h, r.value)
    ensures r.None? <==> target.Undefined?
  {
    match target
    case Undefined => None
    case Prim(_) => Some(Undefined)
    case JsObj(a) =>
      match LookupObj(h[a], k)
      case None => Some(Undefined)
      case Some(Str(c)) => Some(Prim(c))
      case Some(Ref(b)) => LookupObjBelow(h, h[a], a, k); Some(JsObj(b))
  }

  /** The loop `for (i = 0; i < keys.length; i++) target = target[keys[i]]`, key by key. */
  function WalkTo(h: Heap, start: JsVal, ks: seq<string>): (r: Option<JsVal>)
    requires Closed(h) && InHeap(h, start)
    ensures r.Some? ==> InHeap(h, r.value)
    decreases |ks|
  {
    if ks == [] then Some(start)
    else match WalkTo(h, start, ks[..|ks| - 1])
      case None => None
      case Some(t) => ReadProp(h, t, ks[|ks| - 1])
  }

  /** Once the walk has thrown, walking further keys throws too. */
  lemma {:induction false} WalkStuck(h: Heap, start: JsVal, ks: seq<string>, j: nat)
    requires Closed(h) && InHeap(h, start) && j <= |ks| && WalkTo(h, start, ks[..j]).None?
    ensures WalkTo(h, start, ks).None?
    decreases |ks| - j
  {
    if j < |ks| {
      assert ks[..j + 1][..j] == ks[..j];
      WalkStuck(h, start, ks, j + 1);
    } else {
      assert ks[..j] == ks;
    }
  }

  /** The walk ends at an object exactly when `ObjPath` does, and at the same one. */
  lemma {:induction false} WalkToObjPath(h: Heap, a: nat, ks: seq<string>)
    requires Closed(h) && a in h
    ensures (WalkTo(h, JsObj(a), ks).Some? && WalkTo(h, JsObj(a), ks).value.JsObj?)
        <==> ObjPath(h, a, ks).Some?
    ensures ObjPath(h, a, ks).Some? ==> WalkTo(h, JsObj(a), ks) == Some(JsObj(ObjPath(h, a, ks).value))
    decreases |ks|
  {
    if ks != [] {
      var init, k := ks[..|ks| - 1], ks[|ks| - 1];
      assert init + [k] == ks;
      WalkToObjPath(h, a, init);
      ObjPathSnoc(h, a, init, k);
    }
  }

  // ---------------------------------------------------------------------------
  // Assigning a colour string into one object

  lemma {:induction false} SameKeysRefs(h: Heap, h2: Heap, o: Obj, bound: nat)
    requires h.Keys == h2.Keys
    ensures RefsBelow(h, o, bound) == RefsBelow(h2, o, bound)
  {
    assert forall x :: x in h <==> x in h2;
  }

  /** `target[k] = c` on the object at `t`. */
  function StrWrite(h: Heap, t: nat, k: string, c: string): (h2: Heap)
    requires Closed(h) && t in h
    ensures Closed(h2) && h2.Keys == h.Keys
    ensures h2[t] == PutObj(h[t], k, Str(c)) && forall x :: x in h && x != t ==> h2[x] == h[x]
  {
    var h2 := h[t := PutObj(h[t], k, Str(c))];
    assert h2.Keys == h.Keys;
    PutObjBelow(h, h[t], t, k, Str(c));
    forall a | a in h2 ensures RefsBelow(h2, h2[a], a) {
      SameKeysRefs(h, h2, h2[a], a);
    }
    h2
  }

  /** The object under a property of a tree-shaped object is tree-shaped. */
  lemma {:induction false} LookupShaped(h: Heap, o: Obj, bound: nat, k: string, b: nat)
    requires Closed(h) && RefsBelow(h, o, bound) && ShapedEntries(h, o, bound)
    requires LookupObj(o, k) == Some(Ref(b))
    ensures b in h && Shaped(h, b)
    decreases |o|
  {
    RefsBelowCons(h, o, bound);
    if o[0].0 != k {
      LookupShaped(h, o[1..], bound, k, b);
    }
  }

  /**
   * In a tree-shaped object whose property `k` refers to `b`, a heap that differs only at
   * an address `t` reached from `b` changes the object's view only under `k`.
   */
  lemma {:induction false} EntriesWrite(h: Heap, h2: Heap, o: Obj, bound: nat, k: string, b: nat, t: nat)
    requires Closed(h) && Closed(h2) && h2.Keys == h.Keys
    requires RefsBelow(h, o, bound) && ShapedEntries(h, o, bound)
    requires LookupObj(o, k) == Some(Ref(b)) && b in h && t in Reach(h, b)
    requires forall x :: x in h && x != t ==> h2[x] == h[x]
    ensures RefsBelow(h2, o, bound)
    ensures ViewEntries(h2, o, bound) == Put(ViewEntries(h, o, bound), k, View(h2, b))
    decreases |o|
  {
    SameKeysRefs(h, h2, o, bound);
    RefsBelowCons(h, o, bound);
    ReachEntriesBelow(h, o[1..], bound);
    if o[0].0 == k {
      assert AgreeOn(h, h2, ReachEntries(h, o[1..], bound));
      FrameEntries(h, h2, o[1..], bound);
    } else {
      LookupReach(h, o[1..], bound, k, b);
      if o[0].1.Ref? {
        ReachBelow(h, o[0].1.addr);
      }
      assert AgreeOn(h, h2, ReachVal(h, o[0].1, bound));
      FrameVal(h, h2, o[0].1, bound);
      EntriesWrite(h, h2, o[1..], bound, k, b, t);
    }
  }

  /**
   * In a tree-shaped object, assigning the colour at the object that `p` minus its last
   * key walks to is the path write of module ThemeTree on the object's view.
   */
  lemma {:induction false} WriteView(h: Heap, a: nat, p: seq<string>, c: string)
    requires Closed(h) && a in h && Shaped(h, a) && |p| >= 1
    requires ObjPath(h, a, p[..|p| - 1]).Some?
    ensures var h2 := StrWrite(h, ObjPath(h, a, p[..|p| - 1]).value, p[|p| - 1], c);
      && SetPath(View(h, a), p, c).Some?
      && View(h2, a) == SetPath(View(h, a), p, c).value
    decreases p
  {
    var t := ObjPath(h, a, p[..|p| - 1]).value;
    var k := p[0];
    var h2 := StrWrite(h, t, p[|p| - 1], c);
    if |p| == 1 {
      assert t == a;
      ReachEntriesBelow(h, h[a], a);
      assert AgreeOn(h, h2, ReachEntries(h, h[a], a));
      FrameEntries(h, h2, h[a], a);
      PutObjView(h2, h[a], a, k, Str(c));
    } else {
      var b := Child(h, a, k).value;
      var p' := p[1..];
      assert p[..|p| - 1][1..] == p'[..|p'| - 1];
      assert p'[|p'| - 1] == p[|p| - 1];
      ObjPathReach(h, a, p[..|p| - 1]);
      ReachBelow(h, b);
      LookupShaped(h, h[a], a, k, b);
      WriteView(h, b, p', c);
      EntriesWrite(h, h2, h[a], a, k, b, t);
      LookupView(h, h[a], a, k);
    }
  }

  /** Assigning a colour string keeps every tree-shaped object tree-shaped, reaching no more. */
  lemma {:induction false} StrWriteShaped(h: Heap, t: nat, k: string, c: string, x: nat)
    requires Closed(h) && t in h && x in h && Shaped(h, x)
    ensures Shaped(StrWrite(h, t, k, c), x) && Reach(StrWrite(h, t, k, c), x) <= Reach(h, x)
    decreases x, 2
  {
    var h2 := StrWrite(h, t, k, c);
    StrWriteEntries(h, t, k, c, h[x], x);
    if x == t {
      PutStrReach(h2, h[x], x, k, c);
    }
  }

  lemma {:induction false} StrWriteEntries(h: Heap, t: nat, k: string, c: string, o: Obj, bound: nat)
    requires Closed(h) && t in h && RefsBelow(h, o, bound) && ShapedEntries(h, o, bound)
    ensures RefsBelow(StrWrite(h, t, k, c), o, bound)
    ensures ShapedEntries(StrWrite(h, t, k, c), o, bound)
    ensures ReachEntries(StrWrite(h, t, k, c), o, bound) <= ReachEntries(h, o, bound)
    decreases bound, 1, |o|
  {
    var h2 := StrWrite(h, t, k, c);
    SameKeysRefs(h, h2, o, bound);
    if o != [] {
      RefsBelowCons(h, o, bound);
      RefsBelowCons(h2, o, bound);
      if o[0].1.Ref? {
        StrWriteShaped(h, t, k, c, o[0].1.addr);
      }
      StrWriteEntries(h, t, k, c, o[1..], bound);
    }
  }

  // ---------------------------------------------------------------------------
  // handleColorChange: copy the top level, walk the key path, assign the last key

  /** `{ ...prev }` at the unused address `n`. */
  function CopyTop(h: Heap, a: nat, n: nat): (h1: Heap)
    requires Closed(h) && a in h && forall x :: x in h ==> x < n
    ensures Closed(h1) && h1 == h[n := h[a]]
  {
    var h1 := h[n := h[a]];
    forall x | x in h1 ensures RefsBelow(h1, h1[x], x) {
      assert RefsBelow(h, h1[x], if x == n then a else x);
    }
    h1
  }

  /**
   * The state update of `handleColorChange(key, c)` from the colours at `a`, the copy going
   * to the unused address `n`: None when the walk throws, else the heap after the write.
   */
  function ColorChange(h: Heap, a: nat, n: nat, keys: seq<string>, c: string): Option<Heap>
    requires Closed(h) && a in h && forall x :: x in h ==> x < n
    requires |keys| >= 1
  {
    var h1 := CopyTop(h, a, n);
    match WalkTo(h1, JsObj(n), keys[..|keys| - 1])
    case Some(JsObj(t)) => Some(StrWrite(h1, t, keys[|keys| - 1], c))
    case _ => None
  }

  /**
   * The change succeeds exactly when the path write on the tree does, and the copy then
   * reads out as that write's result; both the copy and the previous colours stay
   * tree-shaped.
   */
  lemma ColorChangeView(h: Heap, a: nat, n: nat, keys: seq<string>, c: string)
    requires Closed(h) && a in h && Shaped(h, a) && forall x :: x in h ==> x < n
    requires |keys| >= 1
    ensures ColorChange(h, a, n, keys, c).Some? <==> SetPath(View(h, a), keys, c).Some?
    ensures ColorChange(h, a, n, keys, c).Some? ==>
      var h2 := ColorChange(h, a, n, keys, c).value;
      && Closed(h2) && n in h2 && a in h2
      && View(h2, n) == SetPath(View(h, a), keys, c).value
      && Shaped(h2, n) && Shaped(h2, a)
      && forall x :: x in h2 <==> x in h || x == n
  {
    var h1 := CopyTop(h, a, n);
    var init := keys[..|keys| - 1];
    ReachBelow(h, a);
    assert AgreeOn(h, h1, Reach(h, a));
    FrameView(h, h1, a);
    SameObj(h1, n, a);
    WalkToObjPath(h1, n, init);
    ObjPathGet(h1, n, init);
    SetPathDefined(View(h1, n), keys, c);
    if ObjPath(h1, n, init).Some? {
      var t := ObjPath(h1, n, init).value;
      WriteView(h1, n, keys, c);
      StrWriteShaped(h1, t, keys[|keys| - 1], c, n);
      StrWriteShaped(h1, t, keys[|keys| - 1], c, a);
    }
  }

  /**
   * Only the top level is copied: a one-key change leaves the previous colours as they
   * were, while a change under a nested key shows in the previous colours too, which
   * then read out exactly as the new ones.
   */
  lemma ColorChangeShares(h: Heap, a: nat, n: nat, keys: seq<string>, c: string)
    requires Closed(h) && a in h && forall x :: x in h ==> x < n
    requires |keys| >= 1 && ColorChange(h, a, n, keys, c).Some?
    ensures var h2 := ColorChange(h, a, n, keys, c).value;
      && Closed(h2) && a in h2 && n in h2
      && (|keys| == 1 ==> View(h2, a) == View(h, a))
      && (|keys| >= 2 ==> View(h2, a) == View(h2, n))
  {
    var h1 := CopyTop(h, a, n);
    var init := keys[..|keys| - 1];
    WalkToObjPath(h1, n, init);
    var t := ObjPath(h1, n, init).value;
    var h2 := StrWrite(h1, t, keys[|keys| - 1], c);
    if |keys| == 1 {
      ReachBelow(h, a);
      assert AgreeOn(h, h2, Reach(h, a));
      FrameView(h, h2, a);
    } else {
      ObjPathReach(h1, n, init);
      var b := Child(h1, n, init[0]).value;
      ReachBelow(h1, b);
      assert b < a by {
        assert LookupObj(h1[n], init[0]) == LookupObj(h1[a], init[0]);
        LookupObjBelow(h1, h1[a], a, init[0]);
      }
      SameObj(h2, a, n);
    }
  }

  /** Every tree-shaped object of the heap stays in the heap and stays tree-shaped. */
  lemma ColorChangeKeepsShaped(h: Heap, a: nat, n: nat, keys: seq<string>, c: string, x: nat)
    requires Closed(h) && a in h && forall y :: y in h ==> y < n
    requires |keys| >= 1 && ColorChange(h, a, n, keys, c).Some?
    requires x in h && Shaped(h, x)
    ensures x in ColorChange(h, a, n, keys, c).value && Shaped(ColorChange(h, a, n, keys, c).value, x)
  {
    var h1 := CopyTop(h, a, n);
    var init := keys[..|keys| - 1];
    ReachBelow(h, x);
    assert AgreeOn(h, h1, Reach(h, x));
    FrameView(h, h1, x);
    WalkToObjPath(h1, n, init);
    var t := ObjPath(h1, n, init).value;
    StrWriteShaped(h1, t, keys[|keys| - 1], c, x);
  }

  // ---------------------------------------------------------------------------
  // Building objects: evaluating an object literal

  /** A freshly built value, the heap holding it, and the next unused address. */
  datatype Built = Built(heap: Heap, v: Val, next: nat)

  datatype BuiltEntries = BuiltEntries(heap: Heap, o: Obj, next: nat)

  /** The heap keeps every object of `h` and adds only addresses in `[lo, hi)`. */
  predicate Extends(h: Heap, h2: Heap, lo: nat, hi: nat) {
    && (forall x :: x in h ==> x in h2 && h2[x] == h[x])
    && (forall x :: x in h2 ==> x in h || lo <= x < hi)
  }

  /** Every address of `h` is below `n`. */
  predicate Below(h: Heap, n: nat) {
    forall x :: x in h ==> x < n
  }

  /** Evaluating a literal for `t`: the children first, each object at the next free address. */
  function AllocVal(h: Heap, next: nat, t: Tree): (r: Built)
    requires Closed(h) && Below(h, next)
    ensures Closed(r.heap) && Below(r.heap, r.next) && next <= r.next
    ensures Extends(h, r.heap, next, r.next) && ValBelow(r.heap, r.v, r.next)
    decreases t
  {
    match t
    case Leaf(c) => Built(h, Str(c), next)
    case Node(es) =>
      var b := AllocEntries(h, next, es);
      var h2 := b.heap[b.next := b.o];
      assert RefsBelow(h2, b.o, b.next);
      assert forall x :: x in b.heap ==> RefsBelow(h2, b.heap[x], x);
      Built(h2, Ref(b.next), b.next + 1)
  }

  function AllocEntries(h: Heap, next: nat, es: Entries): (r: BuiltEntries)
    requires Closed(h) && Below(h, next)
    ensures Closed(r.heap) && Below(r.heap, r.next) && next <= r.next
    ensures Extends(h, r.heap, next, r.next) && RefsBelow(r.heap, r.o, r.next)
    decreases es
  {
    if es == [] then BuiltEntries(h, [], next)
    else
      var b1 := AllocVal(h, next, es[0].value);
      var b2 := AllocEntries(b1.heap, b1.next, es[1..]);
      RefsBelowCons(b2.heap, [(es[0].key, b1.v)] + b2.o, b2.next);
      BuiltEntries(b2.heap, [(es[0].key, b1.v)] + b2.o, b2.next)
  }

  /** A set of addresses within `[lo, hi)`. */
  predicate Within(s: set<nat>, lo: nat, hi: nat) {
    forall x :: x in s ==> lo <= x < hi
  }

  /** The built value reads out as `t`. */
  lemma {:induction false} AllocValView(h: Heap, next: nat, t: Tree)
    requires Closed(h) && Below(h, next)
    ensures var r := AllocVal(h, next, t); ViewVal(r.heap, r.v, r.next) == t
    decreases t
  {
    match t
    case Leaf(_) =>
    case Node(es) =>
      var b := AllocEntries(h, next, es);
      var h2 := b.heap[b.next := b.o];
      AllocEntriesView(h, next, es);
      ReachEntriesBelow(b.heap, b.o, b.next);
      assert AgreeOn(b.heap, h2, ReachEntries(b.heap, b.o, b.next));
      FrameEntries(b.heap, h2, b.o, b.next);
  }

  lemma {:induction false} AllocEntriesView(h: Heap, next: nat, es: Entries)
    requires Closed(h) && Below(h, next)
    ensures var r := AllocEntries(h, next, es); ViewEntries(r.heap, r.o, r.next) == es
    decreases es
  {
    if es != [] {
      var b1 := AllocVal(h, next, es[0].value);
      var b2 := AllocEntries(b1.heap, b1.next, es[1..]);
      var o := [(es[0].key, b1.v)] + b2.o;
      assert o[0] == (es[0].key, b1.v) && o[1..] == b2.o;
      assert AllocEntries(h, next, es) == BuiltEntries(b2.heap, o, b2.next);
      AllocValView(h, next, es[0].value);
      AllocEntriesView(b1.heap, b1.next, es[1..]);
      ExtendsKeepsVal(b1.heap, b2.heap, b1.v, b1.next, b2.next);
      assert ViewVal(b2.heap, b1.v, b2.next) == es[0].value;
      assert ViewEntries(b2.heap, b2.o, b2.next) == es[1..];
      EntriesConsView(b2.heap, o, b2.next);
      assert es == [Entry(es[0].key, es[0].value)] + es[1..];
    }
  }

  /** The built value reaches only what was built. */
  lemma {:induction false} AllocValWithin(h: Heap, next: nat, t: Tree)
    requires Closed(h) && Below(h, next)
    ensures var r := AllocVal(h, next, t); Within(ReachVal(r.heap, r.v, r.next), next, r.next)
    decreases t
  {
    match t
    case Leaf(_) =>
    case Node(es) =>
      var b := AllocEntries(h, next, es);
      var h2 := b.heap[b.next := b.o];
      AllocEntriesWithin(h, next, es);
      ReachEntriesBelow(b.heap, b.o, b.next);
      assert AgreeOn(b.heap, h2, ReachEntries(b.heap, b.o, b.next));
      FrameEntries(b.heap, h2, b.o, b.next);
  }

  lemma {:induction false} AllocEntriesWithin(h: Heap, next: nat, es: Entries)
    requires Closed(h) && Below(h, next)
    ensures var r := AllocEntries(h, next, es); Within(ReachEntries(r.heap, r.o, r.next), next, r.next)
    decreases es
  {
    if es != [] {
      var b1 := AllocVal(h, next, es[0].value);
      var b2 := AllocEntries(b1.heap, b1.next, es[1..]);
      var o := [(es[0].key, b1.v)] + b2.o;
      assert o[0] == (es[0].key, b1.v) && o[1..] == b2.o;
      AllocValWithin(h, next, es[0].value);
      AllocEntriesWithin(b1.heap, b1.next, es[1..]);
      ExtendsKeepsVal(b1.heap, b2.heap, b1.v, b1.next, b2.next);
      EntriesCons(b2.heap, o, b2.next);
    }
  }

  /** The built value is tree-shaped. */
  lemma {:induction false} AllocValShaped(h: Heap, next: nat, t: Tree)
    requires Closed(h) && Below(h, next)
    ensures var r := AllocVal(h, next, t); ShapedVal(r.heap, r.v, r.next)
    decreases t
  {
    match t
    case Leaf(_) =>
    case Node(es) =>
      var b := AllocEntries(h, next, es);
      var h2 := b.heap[b.next := b.o];
      AllocEntriesShaped(h, next, es);
      ReachEntriesBelow(b.heap, b.o, b.next);
      assert AgreeOn(b.heap, h2, ReachEntries(b.heap, b.o, b.next));
      FrameEntries(b.heap, h2, b.o, b.next);
  }

  lemma {:induction false} AllocEntriesShaped(h: Heap, next: nat, es: Entries)
    requires Closed(h) && Below(h, next)
    ensures var r := AllocEntries(h, next, es); ShapedEntries(r.heap, r.o, r.next)
    decreases es
  {
    if es != [] {
      var b1 := AllocVal(h, next, es[0].value);
      var b2 := AllocEntries(b1.heap, b1.next, es[1..]);
      var o := [(es[0].key, b1.v)] + b2.o;
      assert o[0] == (es[0].key, b1.v) && o[1..] == b2.o;
      AllocValShaped(h, next, es[0].value);
      AllocEntriesShaped(b1.heap, b1.next, es[1..]);
      AllocValWithin(h, next, es[0].value);
      AllocEntriesWithin(b1.heap, b1.next, es[1..]);
      ExtendsKeepsVal(b1.heap, b2.heap, b1.v, b1.next, b2.next);
      EntriesCons(b2.heap, o, b2.next);
      WithinDisjoint(ReachVal(b2.heap, b1.v, b2.next), ReachEntries(b2.heap, b2.o, b2.next), next, b1.next, b2.next);
    }
  }

  /** Sets in two consecutive address ranges are disjoint. */
  lemma WithinDisjoint(s1: set<nat>, s2: set<nat>, lo: nat, mid: nat, hi: nat)
    requires Within(s1, lo, mid) && Within(s2, mid, hi)
    ensures s1 !! s2
  {
  }

  /** One property off the front of an object, as read out. */
  lemma EntriesConsView(h: Heap, o: Obj, bound: nat)
    requires Closed(h) && RefsBelow(h, o, bound) && o != []
    ensures ViewEntries(h, o, bound) == [Entry(o[0].0, ViewVal(h, o[0].1, bound))] + ViewEntries(h, o[1..], bound)
  {
    RefsBelowCons(h, o, bound);
  }

  /** One property off the front of an object, as reached and as shaped. */
  lemma EntriesCons(h: Heap, o: Obj, bound: nat)
    requires Closed(h) && RefsBelow(h, o, bound) && o != []
    ensures ValBelow(h, o[0].1, bound) && RefsBelow(h, o[1..], bound)
    ensures ReachEntries(h, o, bound) == ReachVal(h, o[0].1, bound) + ReachEntries(h, o[1..], bound)
    ensures ShapedEntries(h, o, bound) <==>
      ShapedVal(h, o[0].1, bound) && ShapedEntries(h, o[1..], bound) &&
      ReachVal(h, o[0].1, bound) !! ReachEntries(h, o[1..], bound)
  {
    RefsBelowCons(h, o, bound);
  }

  /** A value built below `n1` reads out the same in any heap that only adds to it. */
  lemma ExtendsKeepsVal(h1: Heap, h2: Heap, v: Val, n1: nat, n2: nat)
    requires Closed(h1) && Closed(h2) && ValBelow(h1, v, n1) && ValBelow(h2, v, n2)
    requires Extends(h1, h2, n1, n2)
    ensures ViewVal(h2, v, n2) == ViewVal(h1, v, n1) && ReachVal(h2, v, n2) == ReachVal(h1, v, n1)
    ensures ShapedVal(h2, v, n2) == ShapedVal(h1, v, n1)
  {
    if v.Ref? {
      ReachBelow(h1, v.addr);
    }
    assert AgreeOn(h1, h2, ReachVal(h1, v, n1));
    FrameVal(h1, h2, v, n1);
    ValBound(h2, v, n1, n2);
  }

  /** The bound of a single value only serves termination. */
  lemma ValBound(h: Heap, v: Val, b1: nat, b2: nat)
    requires Closed(h) && ValBelow(h, v, b1) && ValBelow(h, v, b2)
    ensures ViewVal(h, v, b1) == ViewVal(h, v, b2) && ReachVal(h, v, b1) == ReachVal(h, v, b2)
    ensures ShapedVal(h, v, b1) == ShapedVal(h, v, b2)
  {
  }

  /** An object built for a tree: it reads out as that tree and is tree-shaped. */
  lemma AllocObject(h: Heap, next: nat, t: Tree)
    requires Closed(h) && Below(h, next) && t.Node?
    ensures var r := AllocVal(h, next, t);
      && r.v.Ref? && r.v.addr in r.heap && View(r.heap, r.v.addr) == t && Shaped(r.heap, r.v.addr)
  {
    AllocValView(h, next, t);
    AllocValShaped(h, next, t);
  }

  /** Building a new object tree changes nothing already in the heap. */
  lemma AllocKeepsOld(h: Heap, next: nat, t: Tree)
    requires Closed(h) && Below(h, next) && t.Node?
    ensures var r := AllocVal(h, next, t);
      && r.v.Ref? && r.v.addr in r.heap && View(r.heap, r.v.addr) == t && Shaped(r.heap, r.v.addr)
      && forall y :: y in h ==> y in r.heap && View(r.heap, y) == View(h, y) && Shaped(r.heap, y) == Shaped(h, y)
  {
    var r := AllocVal(h, next, t);
    AllocObject(h, next, t);
    forall y | y in h ensures y in r.heap && View(r.heap, y) == View(h, y) && Shaped(r.heap, y) == Shaped(h, y) {
      ReachBelow(h, y);
      assert AgreeOn(h, r.heap, Reach(h, y));
      FrameView(h, r.heap, y);
    }
  }
}
