/**
 collectCss of the customer tracking shell: a depth-first walk of the Vite manifest,
 whose import graph may be cyclic and may name chunks that are not there, with one
 shared `seen` set that every recursive call updates.
 */
module TrackingAssets {
  import opened Wrappers

  /** Manifest keys and asset paths. */
  type Key = string
  type Asset = string

  datatype Chunk = Chunk(css: Option<seq<Asset>>, file: Option<Asset>, imports: Option<seq<Key>>)

  type Manifest = map<Key, Chunk>

  function Css(m: Manifest, key: Key): seq<Asset> {
    if key in m && m[key].css.Some? then m[key].css.value else []
  }

  function Imports(m: Manifest, key: Key): seq<Key> {
    if key in m && m[key].imports.Some? then m[key].imports.value else []
  }

  // ----- the walk, as a function of the set of keys already seen -----

  /** `order` lists the chunks in the order in which their own css is emitted. */
  datatype Walk = Walk(order: seq<Key>, seen: set<Key>)

  function Visit(m: Manifest, key: Key, seen: set<Key>): (w: Walk)
    ensures seen <= w.seen
    decreases |m.Keys - seen|, 0
  {
    if key in seen then Walk([], seen)
    else if key !in m then Walk([], seen + {key})
    else
      assert m.Keys - (seen + {key}) == (m.Keys - seen) - {key};
      var children := VisitAll(m, Imports(m, key), seen + {key});
      Walk(children.order + [key], children.seen)
  }

  lemma {:induction false} SubsetSize(a: set<Key>, b: set<Key>)
    requires a <= b
    ensures |a| <= |b|
  {
    if a == {} {
    } else {
      var x :| x in a;
      SubsetSize(a - {x}, b - {x});
    }
  }

  lemma Shrinks(all: set<Key>, small: set<Key>, large: set<Key>)
    requires small <= large
    ensures |all - large| <= |all - small|
  {
    SubsetSize(all - large, all - small);
  }

  function VisitAll(m: Manifest, keys: seq<Key>, seen: set<Key>): (w: Walk)
    ensures seen <= w.seen
    decreases |m.Keys - seen|, |keys|
  {
    if keys == [] then Walk([], seen)
    else
      var first := Visit(m, keys[0], seen);
      Shrinks(m.Keys, seen, first.seen);
      var rest := VisitAll(m, keys[1..], first.seen);
      Walk(first.order + rest.order, rest.seen)
  }

  function Flatten(m: Manifest, order: seq<Key>): seq<Asset> {
    if order == [] then [] else Css(m, order[0]) + Flatten(m, order[1..])
  }

  lemma {:induction false} FlattenConcat(m: Manifest, a: seq<Key>, b: seq<Key>)
    ensures Flatten(m, a + b) == Flatten(m, a) + Flatten(m, b)
  {
    if a == [] {
      assert a + b == b;
    } else {
      assert (a + b)[1..] == a[1..] + b;
      FlattenConcat(m, a[1..], b);
    }
  }

  // ----- what a walk visits -----

  /** Exactly the manifest keys that became seen are listed, each of them once. */
  ghost predicate Lists(m: Manifest, seen: set<Key>, w: Walk) {
    && (forall k :: k in w.order <==> k in m && k in w.seen && k !in seen)
    && (forall i, j :: 0 <= i < j < |w.order| ==> w.order[i] != w.order[j])
  }

  lemma {:induction false} VisitLists(m: Manifest, key: Key, seen: set<Key>)
    ensures Lists(m, seen, Visit(m, key, seen))
    ensures key in Visit(m, key, seen).seen
    decreases |m.Keys - seen|, 0
  {
    if key in seen || key !in m {
    } else {
      assert m.Keys - (seen + {key}) == (m.Keys - seen) - {key};
      VisitAllLists(m, Imports(m, key), seen + {key});
    }
  }

  lemma ListsConcat(m: Manifest, seen: set<Key>, first: Walk, rest: Walk)
    requires seen <= first.seen <= rest.seen
    requires Lists(m, seen, first) && Lists(m, first.seen, rest)
    ensures Lists(m, seen, Walk(first.order + rest.order, rest.seen))
  {
    var order := first.order + rest.order;
    forall i, j | 0 <= i < j < |order| ensures order[i] != order[j] {
      if i < |first.order| <= j {
        assert first.order[i] in first.order && rest.order[j - |first.order|] in rest.order;
      }
    }
  }

  lemma {:induction false} VisitAllLists(m: Manifest, keys: seq<Key>, seen: set<Key>)
    ensures Lists(m, seen, VisitAll(m, keys, seen))
    ensures forall k :: k in keys ==> k in VisitAll(m, keys, seen).seen
    decreases |m.Keys - seen|, |keys|
  {
    if keys == [] {
    } else {
      var first := Visit(m, keys[0], seen);
      Shrinks(m.Keys, seen, first.seen);
      VisitLists(m, keys[0], seen);
      VisitAllLists(m, keys[1..], first.seen);
      ListsConcat(m, seen, first, VisitAll(m, keys[1..], first.seen));
    }
  }

  // ----- reachability -----

  /** a is a chunk of the manifest that imports b. */
  predicate ImportsChunk(m: Manifest, a: Key, b: Key) {
    a in m && m[a].imports.Some? && b in m[a].imports.value
  }

  ghost predicate IsPath(m: Manifest, path: seq<Key>, a: Key, b: Key) {
    && path != [] && path[0] == a && path[|path| - 1] == b
    && forall i :: 0 <= i < |path| - 1 ==> ImportsChunk(m, path[i], path[i + 1])
  }

  ghost predicate Reaches(m: Manifest, a: Key, b: Key) {
    exists path :: IsPath(m, path, a, b)
  }

  lemma ReachesSelf(m: Manifest, a: Key)
    ensures Reaches(m, a, a)
  {
    assert IsPath(m, [a], a, a);
  }

  lemma ReachesThroughImport(m: Manifest, a: Key, b: Key, c: Key)
    requires a in m && b in Imports(m, a) && Reaches(m, b, c)
    ensures Reaches(m, a, c)
  {
    var path :| IsPath(m, path, b, c);
    assert IsPath(m, [a] + path, a, c);
  }

  /** Whatever a visit newly sees is reachable from its key. */
  lemma {:induction false} VisitSeesReachable(m: Manifest, key: Key, seen: set<Key>, k: Key)
    requires k in Visit(m, key, seen).seen && k !in seen
    ensures Reaches(m, key, k)
    decreases |m.Keys - seen|, 0
  {
    if key == k {
      ReachesSelf(m, k);
    } else {
      assert m.Keys - (seen + {key}) == (m.Keys - seen) - {key};
      var child := VisitAllSeesReachable(m, Imports(m, key), seen + {key}, k);
      ReachesThroughImport(m, key, child, k);
    }
  }

  lemma {:induction false} VisitAllSeesReachable(m: Manifest, keys: seq<Key>, seen: set<Key>, k: Key)
    returns (from: Key)
    requires k in VisitAll(m, keys, seen).seen && k !in seen
    ensures from in keys && Reaches(m, from, k)
    decreases |m.Keys - seen|, |keys|
  {
    var first := Visit(m, keys[0], seen);
    if k in first.seen {
      VisitSeesReachable(m, keys[0], seen, k);
      from := keys[0];
    } else {
      Shrinks(m.Keys, seen, first.seen);
      from := VisitAllSeesReachable(m, keys[1..], first.seen, k);
    }
  }

  /** Every import of a newly seen chunk has been seen when the visit ends. */
  lemma {:induction false} VisitCloses(m: Manifest, key: Key, seen: set<Key>, a: Key, b: Key)
    requires a in m && a in Visit(m, key, seen).seen && a !in seen && b in Imports(m, a)
    ensures b in Visit(m, key, seen).seen
    decreases |m.Keys - seen|, 0
  {
    assert m.Keys - (seen + {key}) == (m.Keys - seen) - {key};
    if a == key {
      VisitAllLists(m, Imports(m, key), seen + {key});
    } else {
      VisitAllCloses(m, Imports(m, key), seen + {key}, a, b);
    }
  }

  lemma {:induction false} VisitAllCloses(m: Manifest, keys: seq<Key>, seen: set<Key>, a: Key, b: Key)
    requires a in m && a in VisitAll(m, keys, seen).seen && a !in seen && b in Imports(m, a)
    ensures b in VisitAll(m, keys, seen).seen
    decreases |m.Keys - seen|, |keys|
  {
    var first := Visit(m, keys[0], seen);
    if a in first.seen {
      VisitCloses(m, keys[0], seen, a, b);
    } else {
      Shrinks(m.Keys, seen, first.seen);
      VisitAllCloses(m, keys[1..], first.seen, a, b);
    }
  }

  lemma {:induction false} PathIsSeen(m: Manifest, key: Key, path: seq<Key>, k: Key)
    requires IsPath(m, path, key, k)
    ensures k in Visit(m, key, {}).seen
  {
    if |path| == 1 {
      VisitLists(m, key, {});
    } else {
      var previous := path[|path| - 2];
      PathIsSeen(m, key, path[..|path| - 1], previous);
      VisitCloses(m, key, {}, previous, k);
    }
  }

  /** The walk from an empty set visits exactly the chunks reachable from the entry, each once. */
  lemma WalkIsReachable(m: Manifest, entry: Key)
    ensures Lists(m, {}, Visit(m, entry, {}))
    ensures forall k :: k in Visit(m, entry, {}).order <==> k in m && Reaches(m, entry, k)
  {
    VisitLists(m, entry, {});
    forall k ensures k in Visit(m, entry, {}).order <==> k in m && Reaches(m, entry, k) {
      if k in Visit(m, entry, {}).order {
        VisitSeesReachable(m, entry, {}, k);
      }
      if k in m && Reaches(m, entry, k) {
        var path :| IsPath(m, path, entry, k);
        PathIsSeen(m, entry, path, k);
      }
    }
  }

  // ----- post-order -----

  /** An import was seen before the walk, is listed before its importer, or lies on a cycle with it. */
  ghost predicate ImportsFirst(m: Manifest, seen: set<Key>, order: seq<Key>) {
    forall i, b :: 0 <= i < |order| && b in m && b in Imports(m, order[i]) ==>
      b in seen || b in order[..i] || Reaches(m, b, order[i])
  }

  lemma {:induction false} VisitPostOrder(m: Manifest, key: Key, seen: set<Key>)
    ensures ImportsFirst(m, seen, Visit(m, key, seen).order)
    decreases |m.Keys - seen|, 0
  {
    if key in seen || key !in m {
    } else {
      assert m.Keys - (seen + {key}) == (m.Keys - seen) - {key};
      var inner := VisitAll(m, Imports(m, key), seen + {key});
      VisitAllPostOrder(m, Imports(m, key), seen + {key});
      VisitAllLists(m, Imports(m, key), seen + {key});
      ReachesSelf(m, key);
      var order := inner.order + [key];
      forall i, b | 0 <= i < |order| && b in m && b in Imports(m, order[i])
        ensures b in seen || b in order[..i] || Reaches(m, b, order[i])
      {
        if i < |inner.order| {
          assert inner.order[i] in inner.order && order[..i] == inner.order[..i];
          if b == key {
            var child := VisitAllSeesReachable(m, Imports(m, key), seen + {key}, order[i]);
            ReachesThroughImport(m, key, child, order[i]);
          }
        } else {
          assert order[..i] == inner.order;
        }
      }
    }
  }

  lemma ImportsFirstConcat(m: Manifest, seen: set<Key>, first: seq<Key>, between: set<Key>, rest: seq<Key>)
    requires ImportsFirst(m, seen, first) && ImportsFirst(m, between, rest)
    requires forall b :: b in m && b in between ==> b in seen || b in first
    ensures ImportsFirst(m, seen, first + rest)
  {
    var order := first + rest;
    forall i, b | 0 <= i < |order| && b in m && b in Imports(m, order[i])
      ensures b in seen || b in order[..i] || Reaches(m, b, order[i])
    {
      if i < |first| {
        assert order[..i] == first[..i];
      } else {
        assert order[..i] == first + rest[..i - |first|];
      }
    }
  }

  lemma {:induction false} VisitAllPostOrder(m: Manifest, keys: seq<Key>, seen: set<Key>)
    ensures ImportsFirst(m, seen, VisitAll(m, keys, seen).order)
    decreases |m.Keys - seen|, |keys|
  {
    if keys == [] {
    } else {
      var first := Visit(m, keys[0], seen);
      Shrinks(m.Keys, seen, first.seen);
      VisitLists(m, keys[0], seen);
      VisitPostOrder(m, keys[0], seen);
      VisitAllPostOrder(m, keys[1..], first.seen);
      ImportsFirstConcat(m, seen, first.order, first.seen, VisitAll(m, keys[1..], first.seen).order);
    }
  }

  lemma Regroup<T>(x: seq<T>, a: seq<T>, y: seq<T>, b: seq<T>, z: seq<T>)
    ensures x + a + (y + b + z) == x + a + y + b + z
  {
  }

  lemma FlattenAround(m: Manifest, order: seq<Key>, i: nat)
    requires i < |order|
    ensures Flatten(m, order) == Flatten(m, order[..i]) + Css(m, order[i]) + Flatten(m, order[i + 1..])
  {
    assert order == order[..i] + order[i..];
    FlattenConcat(m, order[..i], order[i..]);
    assert order[i..][1..] == order[i + 1..];
  }

  lemma FlattenAroundTwo(m: Manifest, order: seq<Key>, i: nat, j: nat)
    requires i < j < |order|
    ensures Flatten(m, order) == Flatten(m, order[..i]) + Css(m, order[i]) + Flatten(m, order[i + 1..j])
                                 + Css(m, order[j]) + Flatten(m, order[j + 1..])
  {
    FlattenAround(m, order, i);
    FlattenAround(m, order[i + 1..], j - i - 1);
    assert order[i + 1..][..j - i - 1] == order[i + 1..j] && order[i + 1..][j - i..] == order[j + 1..];
    Regroup(Flatten(m, order[..i]), Css(m, order[i]), Flatten(m, order[i + 1..j]), Css(m, order[j]),
            Flatten(m, order[j + 1..]));
  }

  function OwnCss(chunk: Chunk): seq<Asset> {
    match chunk.css
    case Some(css) => css
    case None => []
  }

  lemma CssIsOwn(m: Manifest, key: Key)
    requires key in m
    ensures Css(m, key) == OwnCss(m[key])
  {
  }

  /** An asset is in the css of a walk exactly if one of the visited chunks lists it. */
  lemma {:induction false} FlattenMember(m: Manifest, order: seq<Key>, asset: Asset)
    requires forall k :: k in order ==> k in m
    ensures asset in Flatten(m, order) <==> exists k :: k in order && asset in OwnCss(m[k])
  {
    if order == [] {
    } else {
      FlattenMember(m, order[1..], asset);
      assert order == [order[0]] + order[1..];
    }
  }

  /**
   For a reachable import of b by a where b does not import a back, all of b's css
   is emitted before a's own.
   */
  lemma ImportedCssComesFirst(m: Manifest, entry: Key, a: Key, b: Key) returns (i: nat, j: nat)
    requires b in m && Reaches(m, entry, a) && ImportsChunk(m, a, b) && !Reaches(m, b, a)
    ensures var order := Visit(m, entry, {}).order;
            && i < j < |order| && order[i] == b && order[j] == a
            && Flatten(m, order) == Flatten(m, order[..i]) + OwnCss(m[b]) + Flatten(m, order[i + 1..j])
                                    + OwnCss(m[a]) + Flatten(m, order[j + 1..])
  {
    var order := Visit(m, entry, {}).order;
    WalkIsReachable(m, entry);
    VisitPostOrder(m, entry, {});
    j :| 0 <= j < |order| && order[j] == a;
    i :| 0 <= i < j && order[..j][i] == b;
    FlattenAroundTwo(m, order, i, j);
    CssIsOwn(m, a);
    CssIsOwn(m, b);
  }

  // ----- the code -----

  class SeenKeys {
    var keys: set<Key>

    constructor ()
      ensures keys == {}
    {
      keys := {};
    }
  }

  /** After the first i imports, `order` and `seen` are what the rest of the walk continues from. */
  ghost predicate Continues(m: Manifest, keys: seq<Key>, start: set<Key>, i: nat, order: seq<Key>, seen: set<Key>)
    requires i <= |keys|
  {
    var rest, whole := VisitAll(m, keys[i..], seen), VisitAll(m, keys, start);
    whole.order == order + rest.order && whole.seen == rest.seen
  }

  lemma ContinuesStep(m: Manifest, keys: seq<Key>, start: set<Key>, i: nat, order: seq<Key>, seen: set<Key>)
    requires i < |keys| && Continues(m, keys, start, i, order, seen)
    ensures var step := Visit(m, keys[i], seen);
            Continues(m, keys, start, i + 1, order + step.order, step.seen)
  {
    assert keys[i..][1..] == keys[i + 1..];
  }

  method CollectCss(m: Manifest, key: Key, seen: SeenKeys) returns (css: seq<Asset>)
    modifies seen
    ensures seen.keys == Visit(m, key, old(seen.keys)).seen
    ensures css == Flatten(m, Visit(m, key, old(seen.keys)).order)
    decreases |m.Keys - seen.keys|
  {
    if key in seen.keys {
      return [];
    }
    ghost var start := seen.keys + {key};
    assert m.Keys - start == (m.Keys - seen.keys) - {key};
    seen.keys := seen.keys + {key};
    if key !in m {
      return [];
    }
    var imports := Imports(m, key);
    css := [];
    ghost var order: seq<Key> := [];
    for i := 0 to |imports|
      invariant start <= seen.keys
      invariant Continues(m, imports, start, i, order, seen.keys)
      invariant css == Flatten(m, order)
    {
      ContinuesStep(m, imports, start, i, order, seen.keys);
      Shrinks(m.Keys, start, seen.keys);
      ghost var step := Visit(m, imports[i], seen.keys);
      var part := CollectCss(m, imports[i], seen);
      css := css + part;
      FlattenConcat(m, order, step.order);
      order := order + step.order;
    }
    assert imports[|imports|..] == [] && order + [] == order;
    assert Visit(m, key, old(seen.keys)).order == order + [key];
    FlattenConcat(m, order, [key]);
    assert Flatten(m, [key]) == Css(m, key);
    css := css + Css(m, key);
  }

  /** The css of the shell: a walk from the entry with a fresh set. */
  method CollectEntryCss(m: Manifest, entry: Key) returns (css: seq<Asset>)
    ensures var order := Visit(m, entry, {}).order;
            && css == Flatten(m, order)
            && (forall k :: k in order <==> k in m && Reaches(m, entry, k))
            && (forall i, j :: 0 <= i < j < |order| ==> order[i] != order[j])
  {
    var seen := new SeenKeys();
    css := CollectCss(m, entry, seen);
    WalkIsReachable(m, entry);
  }

  // ----- the assets of the shell -----

  const ENTRY: Key := "tracking.html"
  const ASSET_BASE := "/admin/ui/app/"

  /** The manifest file may be missing, or there and not readable as JSON. */
  datatype ManifestFile = Absent | Unreadable | Parsed(manifest: Manifest)

  datatype Assets = Assets(css: seq<string>, entry: Option<string>)

  function Linked(css: seq<Asset>): (links: seq<string>)
    ensures |links| == |css|
    ensures forall i :: 0 <= i < |css| ==> links[i] == ASSET_BASE + css[i]
  {
    seq(|css|, i requires 0 <= i < |css| => ASSET_BASE + css[i])
  }

  lemma LinkedMember(css: seq<Asset>, asset: Asset)
    ensures ASSET_BASE + asset in Linked(css) <==> asset in css
  {
    if ASSET_BASE + asset in Linked(css) {
      var i :| 0 <= i < |css| && Linked(css)[i] == ASSET_BASE + asset;
      assert (ASSET_BASE + asset)[|ASSET_BASE|..] == asset && (ASSET_BASE + css[i])[|ASSET_BASE|..] == css[i];
    }
    if asset in css {
      var i :| 0 <= i < |css| && css[i] == asset;
      assert Linked(css)[i] == ASSET_BASE + asset;
    }
  }

  lemma EveryAssetIsLinked(m: Manifest, css: seq<Asset>)
    requires css == Flatten(m, Visit(m, ENTRY, {}).order)
    ensures forall asset :: ASSET_BASE + asset in Linked(css) <==>
              exists k :: k in m && Reaches(m, ENTRY, k) && asset in OwnCss(m[k])
  {
    WalkIsReachable(m, ENTRY);
    forall asset ensures ASSET_BASE + asset in Linked(css) <==>
                           exists k :: k in m && Reaches(m, ENTRY, k) && asset in OwnCss(m[k])
    {
      FlattenMember(m, Visit(m, ENTRY, {}).order, asset);
      LinkedMember(css, asset);
    }
  }

  /**
   The shell links, under the asset base, the css of exactly the chunks that the entry
   reaches, and its script if the entry names a file; without a readable manifest it
   links nothing.
   */
  method ReadTrackingAssets(file: ManifestFile) returns (assets: Assets)
    ensures !file.Parsed? ==> assets == Assets([], None)
    ensures file.Parsed? ==>
              var m := file.manifest;
              var order := Visit(m, ENTRY, {}).order;
              && assets.css == Linked(Flatten(m, order))
              && (forall k :: k in order <==> k in m && Reaches(m, ENTRY, k))
              && (forall i, j :: 0 <= i < j < |order| ==> order[i] != order[j])
              && (forall asset :: ASSET_BASE + asset in assets.css <==>
                    exists k :: k in m && Reaches(m, ENTRY, k) && asset in OwnCss(m[k]))
              && assets.entry == if ENTRY in m && m[ENTRY].file.Some?
                                 then Some(ASSET_BASE + m[ENTRY].file.value) else None
  {
    if file.Absent? || file.Unreadable? {
      return Assets([], None);
    }
    var m := file.manifest;
    var css := CollectEntryCss(m, ENTRY);
    var entry := None;
    if ENTRY in m && m[ENTRY].file.Some? {
      entry := Some(ASSET_BASE + m[ENTRY].file.value);
    }
    assets := Assets(Linked(css), entry);
    EveryAssetIsLinked(m, css);
  }
}
