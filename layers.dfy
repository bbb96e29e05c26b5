/**
 * The layer store of the image handler as values: the layer record that
 * addImageOnLoad builds, the options objects it is built from, and the three
 * ways `sources` changes (append on load, remove the selected layer, drain the
 * layers above the background), each with the properties it keeps.
 */
module Layers {
  import opened Geometry

  datatype Option<T> = None | Some(value: T)

  /** A property of a JavaScript options object: absent, null, or a value. */
  datatype Param<T> = Undefined | Null | Val(value: T)

  /** The size a decoded image reports through `width` and `height`. */
  datatype Size = Size(width: Pixels, height: Pixels)

  /** A decoded image: its source path and its intrinsic size. */
  datatype Picture = Picture(src: string, size: Size)

  /** The `imageOptions` object the inner addImage receives. */
  datatype ImageOptions = ImageOptions(
    name: string,
    x: Param<real>, y: Param<real>, w: Param<int>, h: Param<int>,
    isDraggable: Param<bool>, isResizable: Param<bool>, isBackground: Param<bool>)

  /** The position and size a caller of addImage may give for an overlay. */
  datatype Placement = Placement(x: Param<real>, y: Param<real>, w: Param<int>, h: Param<int>)

  /** The `{ isCentered: true, containerWidth, containerHeight }` argument. */
  datatype Centring = Centring(containerWidth: int, containerHeight: int)

  /** One element of `sources`; `None` stands for JavaScript's null. */
  datatype Layer = Layer(
    image: Picture, name: string,
    x: Option<real>, y: Option<real>, w: Option<int>, h: Option<int>,
    isDraggable: Option<bool>, isResizable: Option<bool>, isBackground: Option<bool>)
  {
    /** `isBackground === true`; for a boolean or null this is also its truthiness. */
    predicate IsBackground() {
      isBackground == Some(true)
    }
  }

  /** A requested load: the arguments the onload closure captured. */
  datatype LoadRequest = LoadRequest(src: string, opts: ImageOptions, centring: Option<Centring>)

  /**
   * getParam: a defined property (null included) is returned as it is; an
   * undefined one gives the default, and null when there is no default.
   */
  function GetParam<T>(p: Param<T>, default: Option<T>): (r: Option<T>)
    ensures p.Val? ==> r == Some(p.value)
    ensures p.Null? ==> r == None
    ensures p.Undefined? ==> r == default
    ensures r.None? <==> p.Null? || (p.Undefined? && default.None?)
  {
    match p
    case Undefined => default
    case Null => None
    case Val(v) => Some(v)
  }

  /** The options addBackground passes: a fixed layer flagged as the background, nothing placed. */
  function BackgroundOptions(): (o: ImageOptions)
    ensures o.name == "background" && WellFormedOptions(o)
    ensures o.isDraggable == Val(false) && o.isResizable == Val(false) && o.isBackground == Val(true)
    ensures o.x.Undefined? && o.y.Undefined? && o.w.Undefined? && o.h.Undefined?
  {
    ImageOptions("background", Undefined, Undefined, Undefined, Undefined, Val(false), Val(false), Val(true))
  }

  /**
   * The options the public addImage passes once it has written the name and
   * the flags into the caller's placement: a movable overlay.
   */
  function OverlayOptions(name: string, p: Placement): (o: ImageOptions)
    ensures o.name == name && WellFormedOptions(o)
    ensures o.x == p.x && o.y == p.y && o.w == p.w && o.h == p.h
    ensures o.isDraggable == Val(true) && o.isResizable == Val(true) && o.isBackground == Val(false)
  {
    ImageOptions(name, p.x, p.y, p.w, p.h, Val(true), Val(true), Val(false))
  }

  /**
   * The onload closure's centring: with a container, x and y become the
   * offsets that centre the loaded image; every other option is kept.
   */
  function Centred(opts: ImageOptions, centring: Option<Centring>, size: Size): (o: ImageOptions)
    ensures o.name == opts.name && o.w == opts.w && o.h == opts.h
    ensures o.isDraggable == opts.isDraggable && o.isResizable == opts.isResizable
    ensures o.isBackground == opts.isBackground
    ensures centring.None? ==> o == opts
    ensures centring.Some? ==>
      o.x == Val(CentredOffset(centring.value.containerWidth, size.width)) &&
      o.y == Val(CentredOffset(centring.value.containerHeight, size.height))
  {
    match centring
    case None => opts
    case Some(c) =>
      opts.(x := Val(CentredOffset(c.containerWidth, size.width)),
            y := Val(CentredOffset(c.containerHeight, size.height)))
  }

  /**
   * The layer addImageOnLoad builds: every field read with getParam, and a
   * missing width or height derived from the image's aspect ratio when the
   * other one is given.
   */
  function MakeLayer(pic: Picture, opts: ImageOptions): (l: Layer)
    ensures l.image == pic && l.name == opts.name
    ensures l.x == GetParam(opts.x, None) && l.y == GetParam(opts.y, None)
    ensures l.isDraggable == GetParam(opts.isDraggable, Some(false))
    ensures l.isResizable == GetParam(opts.isResizable, Some(false))
    ensures l.isBackground == GetParam(opts.isBackground, Some(false))
    ensures opts.w.Val? ==> l.w == Some(opts.w.value)
    ensures opts.h.Val? ==> l.h == Some(opts.h.value)
    ensures !opts.w.Val? && !opts.h.Val? ==> l.w == None && l.h == None
    ensures opts.w.Val? && !opts.h.Val? ==>
      l.h.Some? && RoundsTo(pic.size.height, pic.size.width, opts.w.value, l.h.value)
    ensures !opts.w.Val? && opts.h.Val? ==>
      l.w.Some? && RoundsTo(pic.size.width, pic.size.height, opts.h.value, l.w.value)
  {
    var w, h := GetParam(opts.w, None), GetParam(opts.h, None);
    var iw, ih := pic.size.width, pic.size.height;
    // At most one missing dimension is filled in, from the other one.
    var w' := if w.None? && h.Some? then Some(ProportionalWidth(iw, ih, h.value)) else w;
    var h' := if w.Some? && h.None? then Some(ProportionalHeight(iw, ih, w.value)) else h;
    Layer(pic, opts.name, GetParam(opts.x, None), GetParam(opts.y, None), w', h',
          GetParam(opts.isDraggable, Some(false)), GetParam(opts.isResizable, Some(false)),
          GetParam(opts.isBackground, Some(false)))
  }

  /** The layer a completed load of `req` produces. */
  function Loaded(req: LoadRequest, size: Size): (l: Layer)
    ensures l.name == req.opts.name && l.image == Picture(req.src, size)
    ensures req.centring.Some? ==>
      l.x == Some(CentredOffset(req.centring.value.containerWidth, size.width)) &&
      l.y == Some(CentredOffset(req.centring.value.containerHeight, size.height))
    ensures WellFormedOptions(req.opts) ==> Shaped(l)
  {
    MakeLayer(Picture(req.src, size), Centred(req.opts, req.centring, size))
  }

  // ----- what every layer and request looks like -----

  /** The name and flags of both kinds of options the public entry points pass. */
  predicate WellFormedOptions(opts: ImageOptions)
  {
    || (opts.name == "background" &&
        opts.isDraggable == Val(false) && opts.isResizable == Val(false) && opts.isBackground == Val(true))
    || (opts.isDraggable == Val(true) && opts.isResizable == Val(true) && opts.isBackground == Val(false))
  }

  /** A background is named "background" and fixed; an overlay is movable. */
  predicate Shaped(l: Layer)
  {
    || (l.IsBackground() && l.name == "background" &&
        l.isDraggable == Some(false) && l.isResizable == Some(false))
    || (l.isBackground == Some(false) && l.isDraggable == Some(true) && l.isResizable == Some(true))
  }

  predicate HasName(s: seq<Layer>, name: string)
  {
    exists i :: 0 <= i < |s| && s[i].name == name
  }

  predicate HasBackground(s: seq<Layer>)
  {
    exists i :: 0 <= i < |s| && s[i].IsBackground()
  }

  predicate DistinctNames(s: seq<Layer>)
  {
    forall i, j :: 0 <= i < j < |s| ==> s[i].name != s[j].name
  }

  /** The invariant of `sources`: distinct names and well-shaped layers. */
  predicate WellFormed(s: seq<Layer>)
  {
    DistinctNames(s) && forall i :: 0 <= i < |s| ==> Shaped(s[i])
  }

  // ----- addImageOnLoad -----

  /** addImageOnLoad's effect on `sources`: a layer with a taken name is dropped. */
  function Inserted(s: seq<Layer>, l: Layer): (r: seq<Layer>)
    ensures HasName(r, l.name)
    ensures r == s <==> HasName(s, l.name)
    ensures |s| <= |r| <= |s| + 1 && r[..|s|] == s
  {
    if HasName(s, l.name) then s
    else
      assert (s + [l])[|s|] == l;
      s + [l]
  }

  // ----- removeImage -----

  /** `s` without its first layer named `name`. */
  function RemoveFirst(s: seq<Layer>, name: string): (r: seq<Layer>)
    ensures |r| == if HasName(s, name) then |s| - 1 else |s|
  {
    if s == [] then []
    else if s[0].name == name then s[1..]
    else
      assert HasName(s, name) <==> HasName(s[1..], name) by {
        if HasName(s, name) {
          var i :| 0 <= i < |s| && s[i].name == name;
          assert s[1..][i - 1].name == name;
        }
        if HasName(s[1..], name) {
          var i :| 0 <= i < |s| - 1 && s[1..][i].name == name;
          assert s[i + 1].name == name;
        }
      }
      [s[0]] + RemoveFirst(s[1..], name)
  }

  // ----- removeAllImages -----

  /** How the remove-all recursion ends, for a given run of surface replies. */
  datatype Outcome =
    | StoppedAtBackground   // the last layer is the background
    | AwaitingSurface       // the surface has not answered the latest removal yet
    | EmptySources          // `sources[-1].isBackground` threw a TypeError

  datatype Drained = Drained(layers: seq<Layer>, outcome: Outcome)

  /**
   * removeAllImages: while the last layer is not the background, ask the
   * surface to delete it; a non-null reply splices it off, a null reply
   * leaves it, and either way the routine goes round again.
   */
  function Drain(s: seq<Layer>, replies: seq<Option<string>>): (d: Drained)
    ensures |d.layers| <= |s| && d.layers == s[..|d.layers|]
    ensures d.outcome == EmptySources <==> d.layers == []
    ensures d.outcome == StoppedAtBackground ==> d.layers[|d.layers| - 1].IsBackground()
    decreases |replies|
  {
    if s == [] then Drained([], EmptySources)
    else if s[|s| - 1].IsBackground() then Drained(s, StoppedAtBackground)
    else if replies == [] then Drained(s, AwaitingSurface)
    else Drain(if replies[0].Some? then s[..|s| - 1] else s, replies[1..])
  }

  // ----- lemmas -----

  /** Distinct names allow only one layer named "background", so one background. */
  lemma AtMostOneBackground(s: seq<Layer>, i: nat, j: nat)
    requires WellFormed(s) && i < |s| && j < |s|
    requires s[i].IsBackground() && s[j].IsBackground()
    ensures i == j
  {
  }

  /** A fresh name appends exactly one layer and keeps the earlier ones in order. */
  lemma InsertedFresh(s: seq<Layer>, l: Layer)
    requires !HasName(s, l.name)
    ensures |Inserted(s, l)| == |s| + 1
    ensures Inserted(s, l)[..|s|] == s && Inserted(s, l)[|s|] == l
  {
  }

  /** A taken name leaves the store exactly as it was. */
  lemma InsertedDuplicate(s: seq<Layer>, l: Layer)
    requires HasName(s, l.name)
    ensures Inserted(s, l) == s
  {
  }

  /** Running addImageOnLoad twice on one load (onload after img.complete) is running it once. */
  lemma InsertedTwice(s: seq<Layer>, l: Layer)
    ensures Inserted(Inserted(s, l), l) == Inserted(s, l)
  {
    if !HasName(s, l.name) {
      assert (s + [l])[|s|].name == l.name;
    }
  }

  /** Inserting keeps the names distinct and every layer well shaped. */
  lemma InsertedWellFormed(s: seq<Layer>, l: Layer)
    requires WellFormed(s) && Shaped(l)
    ensures WellFormed(Inserted(s, l))
  {
  }

  /** The background is centred in the container, fixed, and flagged as background. */
  lemma BackgroundCentredAndFixed(src: string, c: Centring, size: Size)
    ensures var l := Loaded(LoadRequest(src, BackgroundOptions(), Some(c)), size);
      && l.name == "background"
      && l.x.Some? && l.x.value == c.containerWidth as real - (l.x.value + size.width as real)
      && l.y.Some? && l.y.value == c.containerHeight as real - (l.y.value + size.height as real)
      && l.isDraggable == Some(false) && l.isResizable == Some(false) && l.isBackground == Some(true)
      && l.w == None && l.h == None
  {
  }

  /** An overlay keeps the caller's position, is movable, and is not a background. */
  lemma OverlayMovable(src: string, name: string, p: Placement, size: Size)
    ensures var l := Loaded(LoadRequest(src, OverlayOptions(name, p), None), size);
      && l.name == name
      && l.x == GetParam(p.x, None) && l.y == GetParam(p.y, None)
      && l.isDraggable == Some(true) && l.isResizable == Some(true) && l.isBackground == Some(false)
  {
  }

  /** Removing the first match at `i`, the first index named `name`, splices `i` out. */
  lemma {:induction false} RemoveFirstAt(s: seq<Layer>, name: string, i: nat)
    requires i < |s| && s[i].name == name
    requires forall j :: 0 <= j < i ==> s[j].name != name
    ensures RemoveFirst(s, name) == s[..i] + s[i + 1..]
  {
    if i > 0 {
      RemoveFirstAt(s[1..], name, i - 1);
      assert s[1..][..i - 1] == s[1..i];
      assert s[1..][i..] == s[i + 1..];
      assert [s[0]] + s[1..i] == s[..i];
    }
  }

  /** With no layer of that name, nothing is removed. */
  lemma {:induction false} RemoveFirstAbsent(s: seq<Layer>, name: string)
    requires !HasName(s, name)
    ensures RemoveFirst(s, name) == s
  {
    if s != [] {
      assert s[0].name != name;
      RemoveFirstAbsent(s[1..], name);
    }
  }

  /** In a well-formed store, removing by name removes the only layer of that name. */
  lemma {:induction false} RemoveFirstWellFormed(s: seq<Layer>, name: string)
    requires WellFormed(s)
    ensures WellFormed(RemoveFirst(s, name)) && !HasName(RemoveFirst(s, name), name)
  {
    if s != [] {
      TailWellFormed(s);
      if s[0].name != name {
        RemoveFirstWellFormed(s[1..], name);
        RemovedAvoidsHead(s, name);
        ConsWellFormed(s[0], RemoveFirst(s[1..], name));
      }
    }
  }

  /** The tail of a well-formed store is well formed. */
  lemma TailWellFormed(s: seq<Layer>)
    requires WellFormed(s) && s != []
    ensures WellFormed(s[1..])
  {
    var t := s[1..];
    forall i, j | 0 <= i < j < |t| ensures t[i].name != t[j].name {
      assert t[i] == s[i + 1] && t[j] == s[j + 1];
    }
  }

  /** Removing from the tail leaves no layer named like the head. */
  lemma RemovedAvoidsHead(s: seq<Layer>, name: string)
    requires WellFormed(s) && s != []
    ensures var r := RemoveFirst(s[1..], name);
      forall k :: 0 <= k < |r| ==> r[k].name != s[0].name
  {
    var t := s[1..];
    var r := RemoveFirst(t, name);
    forall k | 0 <= k < |r| ensures r[k].name != s[0].name {
      RemoveFirstSubset(t, name, k);
      var m :| 0 <= m < |t| && t[m] == r[k];
      assert t[m] == s[m + 1];
    }
  }

  /** A well-shaped layer whose name is not taken, put first, keeps the store well formed. */
  lemma ConsWellFormed(l: Layer, r: seq<Layer>)
    requires WellFormed(r) && Shaped(l)
    requires forall k :: 0 <= k < |r| ==> r[k].name != l.name
    ensures WellFormed([l] + r)
  {
    assert ([l] + r)[0] == l;
    assert forall k :: 0 < k < |r| + 1 ==> ([l] + r)[k] == r[k - 1];
  }

  /** Every layer left after a removal was in the store before. */
  lemma {:induction false} RemoveFirstSubset(s: seq<Layer>, name: string, k: nat)
    requires k < |RemoveFirst(s, name)|
    ensures RemoveFirst(s, name)[k] in s
  {
    if s[0].name != name && k > 0 {
      RemoveFirstSubset(s[1..], name, k - 1);
    }
  }

  /** The background, wherever it stands, survives remove-all, which then cannot fail. */
  lemma {:induction false} DrainKeepsBackground(s: seq<Layer>, replies: seq<Option<string>>, b: nat)
    requires b < |s| && s[b].IsBackground()
    ensures b < |Drain(s, replies).layers| && Drain(s, replies).outcome != EmptySources
    decreases |replies|
  {
    if !s[|s| - 1].IsBackground() && replies != [] {
      var s' := if replies[0].Some? then s[..|s| - 1] else s;
      assert b < |s| - 1;
      assert s'[b] == s[b];
      DrainKeepsBackground(s', replies[1..], b);
    }
  }

  /**
   * With the background first and every deletion confirmed, remove-all needs
   * exactly one reply per overlay and ends with the background alone.
   */
  lemma {:induction false} DrainToBackground(s: seq<Layer>, replies: seq<Option<string>>)
    requires WellFormed(s) && s != [] && s[0].IsBackground()
    requires forall k :: 0 <= k < |replies| ==> replies[k].Some?
    ensures |replies| >= |s| - 1 ==> Drain(s, replies) == Drained([s[0]], StoppedAtBackground)
    ensures |replies| < |s| - 1 ==> Drain(s, replies) == Drained(s[..|s| - |replies|], AwaitingSurface)
    decreases |replies|
  {
    if |s| > 1 {
      if s[|s| - 1].IsBackground() {
        AtMostOneBackground(s, 0, |s| - 1);
      }
      if replies != [] {
        var s' := s[..|s| - 1];
        assert WellFormed(s') by {
          assert forall i :: 0 <= i < |s'| ==> s'[i] == s[i];
        }
        DrainToBackground(s', replies[1..]);
        assert forall k :: 0 <= k < |replies| - 1 ==> replies[1..][k] == replies[k + 1];
        if |replies| < |s| - 1 {
          assert s'[..|s'| - |replies[1..]|] == s[..|s| - |replies|];
        }
      }
    }
  }

  /** A surface that keeps answering null stalls remove-all on the top layer. */
  lemma {:induction false} DrainStalls(s: seq<Layer>, replies: seq<Option<string>>)
    requires s != [] && !s[|s| - 1].IsBackground()
    requires forall k :: 0 <= k < |replies| ==> replies[k].None?
    ensures Drain(s, replies) == Drained(s, AwaitingSurface)
    decreases |replies|
  {
    if replies != [] {
      assert forall k :: 0 <= k < |replies| - 1 ==> replies[1..][k] == replies[k + 1];
      DrainStalls(s, replies[1..]);
    }
  }

  /** With no background and every deletion confirmed, remove-all empties the store and throws. */
  lemma {:induction false} DrainWithoutBackground(s: seq<Layer>, replies: seq<Option<string>>)
    requires !HasBackground(s)
    requires |replies| >= |s| && forall k :: 0 <= k < |replies| ==> replies[k].Some?
    ensures Drain(s, replies) == Drained([], EmptySources)
    decreases |replies|
  {
    if s != [] {
      assert !s[|s| - 1].IsBackground();
      var s' := s[..|s| - 1];
      assert !HasBackground(s') by {
        assert forall i :: 0 <= i < |s'| ==> s'[i] == s[i];
      }
      assert forall k :: 0 <= k < |replies| - 1 ==> replies[1..][k] == replies[k + 1];
      DrainWithoutBackground(s', replies[1..]);
    }
  }
}
