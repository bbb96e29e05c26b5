/**
 * The image handler object: the layer list `sources`, the absorbing load
 * error flag `sourcesError`, the public flags `isStarted` and `isChanged`,
 * and the loads still in flight. Image loading and the rendering surface are
 * outside: a load finishes through the events OnLoad or OnError, the
 * surface's answers arrive as parameters.
 */
module Handler {
  import opened Geometry
  import opened Layers

  class ImageHandler {
    /** The container size the handler was created with. */
    const width: int
    const height: int

    /** The layers in paint order, later ones on top. */
    var sources: seq<Layer>
    /** Set by the first failed load; never cleared. */
    var sourcesError: bool
    /** The loads requested and not yet finished, each with its onload closure's arguments. */
    var pending: seq<LoadRequest>
    var isStarted: bool
    var isChanged: bool
    /** Whether any layer was ever inserted; until then only background loads are requested. */
    ghost var bgSeen: bool

    ghost predicate Valid()
      reads this
    {
      && WellFormed(sources)
      && (forall k :: 0 <= k < |pending| ==> WellFormedOptions(pending[k].opts))
      && (!bgSeen ==> sources == [] && forall k :: 0 <= k < |pending| ==> pending[k].opts == BackgroundOptions())
    }

    constructor (width: int, height: int)
      ensures Valid()
      ensures this.width == width && this.height == height
      ensures sources == [] && pending == []
      ensures !sourcesError && !isStarted && !isChanged && !bgSeen
    {
      this.width, this.height := width, height;
      sources, pending := [], [];
      sourcesError, isStarted, isChanged := false, false, false;
      bgSeen := false;
    }

    /**
     * addBackground: request the background image, centred in the container;
     * the flags are set at once, whatever becomes of the load.
     */
    method AddBackground(imageSource: string, cached: Option<Size>)
      requires Valid()
      modifies this
      ensures Valid()
      ensures isStarted && isChanged && sourcesError == old(sourcesError)
      ensures bgSeen == (old(bgSeen) || |sources| > |old(sources)|)
      ensures var req := LoadRequest(imageSource, BackgroundOptions(), Some(Centring(width, height)));
        if old(sourcesError) then sources == old(sources) && pending == old(pending)
        else pending == old(pending) + [req] &&
             sources == if cached.Some? then Inserted(old(sources), Loaded(req, cached.value)) else old(sources)
    {
      LoadImage(imageSource, BackgroundOptions(), Some(Centring(width, height)), cached);
      isStarted := true;
      isChanged := true;
    }

    /**
     * The public addImage: refused, with nothing started or changed, until
     * `sources` holds a background; otherwise an overlay load is requested.
     */
    method AddImage(imageSource: string, name: string, placement: Placement, cached: Option<Size>)
      returns (added: bool)
      requires Valid()
      modifies this
      ensures Valid()
      ensures added == HasBackground(old(sources))
      ensures !old(bgSeen) ==> !added
      ensures bgSeen == (old(bgSeen) || |sources| > |old(sources)|)
      ensures sourcesError == old(sourcesError) && isStarted == old(isStarted)
      ensures !added ==> sources == old(sources) && pending == old(pending) && isChanged == old(isChanged)
      ensures added ==> isChanged
      ensures var req := LoadRequest(imageSource, OverlayOptions(name, placement), None);
        added && !old(sourcesError) ==>
          pending == old(pending) + [req] &&
          sources == if cached.Some? then Inserted(old(sources), Loaded(req, cached.value)) else old(sources)
      ensures added && old(sourcesError) ==> sources == old(sources) && pending == old(pending)
    {
      var hasBackground := ExistBackground();
      if hasBackground {
        LoadImage(imageSource, OverlayOptions(name, placement), None, cached);
        isChanged := true;
        return true;
      }
      return false;
    }

    /**
     * The inner addImage: once a load has failed it does nothing; otherwise
     * it starts a load, and when the image is already complete it runs the
     * onload closure at once as well (the load event may still follow).
     */
    method LoadImage(imageSource: string, opts: ImageOptions, centring: Option<Centring>, cached: Option<Size>)
      requires Valid() && WellFormedOptions(opts)
      requires !bgSeen ==> opts == BackgroundOptions()
      modifies this`sources, this`pending, this`bgSeen
      ensures Valid()
      ensures bgSeen == (old(bgSeen) || |sources| > |old(sources)|)
      ensures old(sourcesError) ==> sources == old(sources) && pending == old(pending)
      ensures var req := LoadRequest(imageSource, opts, centring);
        !old(sourcesError) ==>
          pending == old(pending) + [req] &&
          sources == if cached.Some? then Inserted(old(sources), Loaded(req, cached.value)) else old(sources)
    {
      if !sourcesError {
        var req := LoadRequest(imageSource, opts, centring);
        pending := pending + [req];
        if cached.Some? {
          RunOnload(req, cached.value);
        }
      }
    }

    /** The onload closure: centre if asked to, then addImageOnLoad. */
    method RunOnload(req: LoadRequest, size: Size)
      requires Valid() && WellFormedOptions(req.opts)
      requires !bgSeen ==> req.opts == BackgroundOptions()
      modifies this`sources, this`bgSeen
      ensures Valid()
      ensures bgSeen == (old(bgSeen) || |sources| > |old(sources)|)
      ensures sources == Inserted(old(sources), Loaded(req, size))
    {
      AddImageOnLoad(Picture(req.src, size), Centred(req.opts, req.centring, size));
    }

    /** The load event of the `k`-th pending request. */
    method OnLoad(k: nat, size: Size)
      requires Valid() && k < |pending|
      modifies this`sources, this`pending, this`bgSeen
      ensures Valid()
      ensures bgSeen == (old(bgSeen) || |sources| > |old(sources)|)
      ensures pending == old(pending[..k] + pending[k + 1..])
      ensures sources == Inserted(old(sources), Loaded(old(pending[k]), size))
    {
      var req := pending[k];
      pending := pending[..k] + pending[k + 1..];
      RunOnload(req, size);
    }

    /** The error event of the `k`-th pending request: halts every later request. */
    method OnError(k: nat)
      requires Valid() && k < |pending|
      modifies this`sourcesError, this`pending
      ensures Valid()
      ensures sourcesError
      ensures pending == old(pending[..k] + pending[k + 1..])
    {
      pending := pending[..k] + pending[k + 1..];
      sourcesError := true;
    }

    /** addImageOnLoad: build the layer and append it, unless its name is taken. */
    method AddImageOnLoad(pic: Picture, opts: ImageOptions)
      requires Valid() && WellFormedOptions(opts)
      requires !bgSeen ==> opts.name == "background" && opts.isBackground == Val(true)
      modifies this`sources, this`bgSeen
      ensures Valid()
      ensures sources == Inserted(old(sources), MakeLayer(pic, opts))
      ensures bgSeen == (old(bgSeen) || |sources| > |old(sources)|)
      ensures !old(bgSeen) ==> |sources| == 1 && sources[0].IsBackground()
    {
      var taken := IsImageExists(opts.name);
      if !taken {
        var image := MakeLayer(pic, opts);
        InsertedWellFormed(sources, image);
        sources := sources + [image];
        bgSeen := true;
      }
    }

    /**
     * removeImage: the surface names the selected layer (or null); the first
     * layer of that name is removed and the store marked changed.
     */
    method RemoveImage(selected: Option<string>)
      requires Valid()
      modifies this`sources, this`isChanged
      ensures Valid()
      ensures selected.None? ==> sources == old(sources) && isChanged == old(isChanged)
      ensures selected.Some? ==>
        sources == RemoveFirst(old(sources), selected.value) &&
        isChanged == (old(isChanged) || HasName(old(sources), selected.value))
    {
      if selected.Some? {
        var name := selected.value;
        RemoveFirstWellFormed(sources, name);
        var i := 0;
        while i < |sources|
          invariant 0 <= i <= |sources|
          invariant sources == old(sources) && isChanged == old(isChanged)
          invariant forall j :: 0 <= j < i ==> sources[j].name != name
        {
          if name == sources[i].name {
            RemoveFirstAt(sources, name, i);
            sources := sources[..i] + sources[i + 1..];
            isChanged := true;
            return;
          }
          i := i + 1;
        }
        RemoveFirstAbsent(sources, name);
      }
    }

    /** The public removeAllImages: mark the store changed, then drain it. */
    method RemoveAllImages(replies: seq<Option<string>>) returns (outcome: Outcome)
      requires Valid()
      modifies this`sources, this`isChanged
      ensures Valid()
      ensures isChanged
      ensures sources == Drain(old(sources), replies).layers
      ensures outcome == Drain(old(sources), replies).outcome
    {
      isChanged := true;
      outcome := RemoveTopLayers(replies);
    }

    /**
     * The inner removeAllImages: the surface's answers to its successive
     * removal requests are `replies`; the run ends at the background, when
     * `sources` is empty, or when the answers run out (still waiting).
     */
    method RemoveTopLayers(replies: seq<Option<string>>) returns (outcome: Outcome)
      requires Valid()
      modifies this`sources
      ensures Valid()
      ensures sources == Drain(old(sources), replies).layers
      ensures outcome == Drain(old(sources), replies).outcome
    {
      var i := 0;
      while true
        invariant 0 <= i <= |replies|
        invariant WellFormed(sources)
        invariant Drain(sources, replies[i..]) == Drain(old(sources), replies)
        decreases |replies| - i
      {
        var index := |sources| - 1;
        if index < 0 {
          return EmptySources;
        }
        if sources[index].IsBackground() {
          return StoppedAtBackground;
        }
        if i == |replies| {
          return AwaitingSurface;
        }
        assert replies[i..][1..] == replies[i + 1..];
        if replies[i].Some? {
          assert forall k :: 0 <= k < index ==> sources[..index][k] == sources[k];
          sources := sources[..index];
        }
        i := i + 1;
      }
    }

    /** fitBackground: the surface toggles the fit; the store is marked changed. */
    method FitBackground()
      requires Valid()
      modifies this`isChanged
      ensures Valid()
      ensures isChanged
    {
      isChanged := true;
    }

    /** isImageExists: whether some layer has the name. */
    method IsImageExists(name: string) returns (found: bool)
      ensures found == HasName(sources, name)
    {
      var i := 0;
      while i < |sources|
        invariant 0 <= i <= |sources|
        invariant forall j :: 0 <= j < i ==> sources[j].name != name
      {
        if name == sources[i].name {
          return true;
        }
        i := i + 1;
      }
      return false;
    }

    /** existBackground: whether some layer's isBackground is true. */
    method ExistBackground() returns (found: bool)
      ensures found == HasBackground(sources)
    {
      var i := 0;
      while i < |sources|
        invariant 0 <= i <= |sources|
        invariant forall j :: 0 <= j < i ==> !sources[j].IsBackground()
      {
        if sources[i].isBackground == Some(true) {
          return true;
        }
        i := i + 1;
      }
      return false;
    }
  }

  /** An overlay before the background is refused; the background is centred. */
  method SessionBackgroundFirst()
  {
    var handler := new ImageHandler(200, 100);
    var ok := handler.AddImage("a.png", "a", Placement(Undefined, Undefined, Val(50), Undefined), None);
    assert !ok && handler.sources == [] && !handler.isChanged;
    handler.AddBackground("bg.png", None);
    assert handler.isStarted && handler.sources == [] && |handler.pending| == 1;
    // The background load has not finished: overlays are still refused.
    ok := handler.AddImage("a.png", "a", Placement(Undefined, Undefined, Undefined, Undefined), Some(Size(10, 10)));
    assert !ok && handler.sources == [];
    handler.OnLoad(0, Size(100, 100));
    assert handler.sources[0].x == Some(50.0) && handler.sources[0].y == Some(0.0);
  }

  /** A missing height is derived from the given width. */
  method SessionDerived()
  {
    var handler := new ImageHandler(200, 100);
    handler.AddBackground("bg.png", Some(Size(100, 100)));
    assert handler.sources[0].IsBackground();
    var ok := handler.AddImage("a.png", "a", Placement(Undefined, Undefined, Val(50), Undefined), Some(Size(100, 200)));
    assert ok && |handler.sources| == 2 && handler.sources[1].h.Some?;
    RoundsToUnique(200, 100, 50, handler.sources[1].h.value, 100);
    assert handler.sources[1].h == Some(100);
  }

  /** A cached duplicate and its later load event add nothing. */
  method SessionDuplicate()
  {
    var handler := new ImageHandler(200, 100);
    handler.AddBackground("bg.png", Some(Size(100, 100)));
    assert handler.sources[0].IsBackground();
    var ok := handler.AddImage("a.png", "a", Placement(Undefined, Undefined, Undefined, Undefined), Some(Size(10, 10)));
    var before := handler.sources;
    assert |before| == 2 && before[1].name == "a";
    ok := handler.AddImage("a.png", "a", Placement(Undefined, Undefined, Undefined, Undefined), Some(Size(10, 10)));
    assert handler.sources == before;
    handler.OnLoad(|handler.pending| - 1, Size(10, 10));
    assert handler.sources == before;
  }

  /** After a failed load, further requests start nothing. */
  method SessionHalted()
  {
    var handler := new ImageHandler(200, 100);
    handler.AddBackground("bg.png", Some(Size(100, 100)));
    assert handler.sources[0].IsBackground();
    var ok := handler.AddImage("bad.png", "b", Placement(Undefined, Undefined, Undefined, Undefined), None);
    handler.OnError(|handler.pending| - 1);
    var before := handler.sources;
    ok := handler.AddImage("c.png", "c", Placement(Undefined, Undefined, Undefined, Undefined), Some(Size(10, 10)));
    assert ok && handler.sources == before && handler.sourcesError;
  }
}
