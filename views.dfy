/**
 * View and layout resolution of the base controller: which templates
 * `_load_view` renders, with which data, and where the result goes.
 */
module Views {
  import opened PhpArray
  import opened Framework

  /** `$this->view`: FALSE, or a string (an empty one means "guess"). */
  datatype ViewSel = NoView | ViewName(name: string)

  /** `$this->layout`: FALSE, a string (an empty one means "guess"), or any other value. */
  datatype LayoutSel = NoLayout | LayoutName(name: string) | LayoutOther

  /** PHP's `empty()` on a string. */
  predicate PhpEmpty(s: string)
  {
    s == "" || s == "0"
  }

  /** The view to render: the one set, else `directory + class + '/' + method`. */
  function ViewPath(view: string, r: Router): string
  {
    if !PhpEmpty(view) then view else r.directory + r.controller + "/" + r.action
  }

  /** The file, relative to APPPATH, whose existence selects a controller-named layout. */
  function LayoutFile(controller: string): string
  {
    "views/layouts/" + controller + ".php"
  }

  /** The layout name: a non-empty string set, else the controller's own if its file exists, else `application`. */
  function ChooseLayout(layout: LayoutSel, controller: string, files: set<string>): string
  {
    if layout.LayoutName? && !PhpEmpty(layout.name) then layout.name
    else if LayoutFile(controller) in files then controller
    else "application"
  }

  /** The key under which the aside declared as `name` reaches the layout. */
  function YieldKey(name: string): string
  {
    "yield_" + name
  }

  function YieldKeys(asides: Data): seq<string>
  {
    seq(|asides|, i requires 0 <= i < |asides| => YieldKey(asides[i].0))
  }

  lemma YieldKeyDistinct(a: string, b: string)
    ensures YieldKey(a) != "yield"
    ensures YieldKey(a) == YieldKey(b) ==> a == b
  {
    assert |YieldKey(a)| > |"yield"|;
    if YieldKey(a) == YieldKey(b) {
      assert a == YieldKey(a)[6..] && b == YieldKey(b)[6..];
    }
  }

  /**
   * The local `$data` of `_load_view` after its aside loop: `yield` set to
   * the primary view's text, then `yield_<name>` set to each aside's text,
   * in the order the asides are declared.
   */
  function LocalData(primary: string, asides: Data, data: Data, render: (string, Data) -> string): Data
    decreases |asides|
  {
    if asides == [] then Put([], "yield", primary)
    else
      var n := |asides| - 1;
      Put(LocalData(primary, asides[..n], data, render), YieldKey(asides[n].0), render(asides[n].1, data))
  }

  /**
   * With distinct aside names, the local `$data` has exactly the keys
   * `yield` and one `yield_<name>` per aside, in that order, none twice.
   */
  lemma {:induction false} LocalDataKeys(primary: string, asides: Data, data: Data, render: (string, Data) -> string)
    requires Unique(asides)
    ensures Keys(LocalData(primary, asides, data, render)) == ["yield"] + YieldKeys(asides)
    ensures Unique(LocalData(primary, asides, data, render))
    decreases |asides|
  {
    if asides == [] {
      assert Keys(LocalData(primary, asides, data, render)) == ["yield"];
    } else {
      var n := |asides| - 1;
      var init := asides[..n];
      assert Keys(init) == Keys(asides)[..n];
      LocalDataKeys(primary, init, data, render);
      var prev := LocalData(primary, init, data, render);
      var key := YieldKey(asides[n].0);
      var text := render(asides[n].1, data);
      YieldKeyDistinct(asides[n].0, asides[n].0);
      forall j | 0 <= j < n ensures YieldKeys(init)[j] != key {
        YieldKeyDistinct(asides[j].0, asides[n].0);
        assert Keys(asides)[j] != Keys(asides)[n];
      }
      assert !HasKey(prev, key);
      PutKeys(prev, key, text);
      PutUnique(prev, key, text);
      assert YieldKeys(asides) == YieldKeys(init) + [key];
    }
  }

  /** The local `$data` maps `yield` to the primary view's text. */
  lemma {:induction false} LocalDataYield(primary: string, asides: Data, data: Data, render: (string, Data) -> string)
    ensures Lookup(LocalData(primary, asides, data, render), "yield") == Some(primary)
    decreases |asides|
  {
    if asides == [] {
      PutLookup([], "yield", primary, "yield");
    } else {
      var n := |asides| - 1;
      LocalDataYield(primary, asides[..n], data, render);
      YieldKeyDistinct(asides[n].0, asides[n].0);
      PutLookup(LocalData(primary, asides[..n], data, render), YieldKey(asides[n].0), render(asides[n].1, data), "yield");
    }
  }

  /**
   * With distinct aside names, the local `$data` maps the `yield_<name>` of
   * aside `i` to that aside's text.
   */
  lemma {:induction false} LocalDataAside(primary: string, asides: Data, data: Data, render: (string, Data) -> string, i: nat)
    requires Unique(asides) && i < |asides|
    ensures Lookup(LocalData(primary, asides, data, render), YieldKey(asides[i].0)) == Some(render(asides[i].1, data))
    decreases |asides|
  {
    var n := |asides| - 1;
    var init := asides[..n];
    var prev := LocalData(primary, init, data, render);
    var key := YieldKey(asides[n].0);
    var text := render(asides[n].1, data);
    assert LocalData(primary, asides, data, render) == Put(prev, key, text);
    PutLookup(prev, key, text, YieldKey(asides[i].0));
    if i < n {
      assert Keys(init) == Keys(asides)[..n];
      LocalDataAside(primary, init, data, render, i);
      YieldKeyDistinct(asides[i].0, asides[n].0);
      assert Keys(asides)[i] != Keys(asides)[n];
      assert init[i] == asides[i];
    }
  }

  /** The captured renders of the asides, each with the controller's own `$this->data`. */
  function AsideCaptures(asides: Data, data: Data): seq<Effect>
  {
    seq(|asides|, i requires 0 <= i < |asides| => Capture(asides[i].1, data))
  }

  /** The data the layout is rendered with: `array_merge($this->data, $data)`. */
  function LayoutData(path: string, data: Data, asides: Data, render: (string, Data) -> string): Data
  {
    Merge(data, LocalData(render(path, data), asides, data, render))
  }

  /** The calls `_load_view` makes for the controller's view, data, layout and asides. */
  function ViewTrace(view: ViewSel, data: Data, layout: LayoutSel, asides: Data, host: Host): seq<Effect>
  {
    if view == NoView then []
    else
      var path := ViewPath(view.name, host.router);
      [Capture(path, data)] + AsideCaptures(asides, data) +
      if layout == NoLayout then [SetOutput(host.render(path, data))]
      else [Render("layouts/" + ChooseLayout(layout, host.router.controller, host.files),
                   LayoutData(path, data, asides, host.render))]
  }

  /** Whether an effect is one of `_load_view`'s calls. */
  predicate IsViewCall(e: Effect)
  {
    e.Capture? || e.Render? || e.SetOutput?
  }

  /** `_load_view` only renders and sets output. */
  lemma ViewTraceCalls(view: ViewSel, data: Data, layout: LayoutSel, asides: Data, host: Host)
    ensures var t := ViewTrace(view, data, layout, asides, host);
      forall j :: 0 <= j < |t| ==> IsViewCall(t[j])
  {
  }

  /** Nothing is rendered or output exactly when the view is FALSE. */
  lemma NoViewNoEffects(view: ViewSel, data: Data, layout: LayoutSel, asides: Data, host: Host)
    ensures ViewTrace(view, data, layout, asides, host) == [] <==> view == NoView
  {
  }

  /**
   * Otherwise the primary view is captured first, with the view set or the
   * conventional path; then each aside, in order, with the original data;
   * then exactly one final call.
   */
  lemma ViewTraceShape(view: ViewSel, data: Data, layout: LayoutSel, asides: Data, host: Host)
    requires view.ViewName?
    ensures var t := ViewTrace(view, data, layout, asides, host);
      && |t| == |asides| + 2
      && t[0] == Capture(ViewPath(view.name, host.router), data)
      && (!PhpEmpty(view.name) ==> t[0].template == view.name)
      && (PhpEmpty(view.name) ==>
            t[0].template == host.router.directory + host.router.controller + "/" + host.router.action)
      && (forall i :: 0 <= i < |asides| ==> t[i + 1] == Capture(asides[i].1, data))
      && (forall j :: 0 <= j < |t| ==> (t[j].Capture? <==> j < |t| - 1))
  {
  }

  /**
   * With a layout, the last call and no other renders `layouts/<L>` with the
   * merged data, where L is a non-empty string layout if one is set
   * (whatever files exist), else the controller's name if its layout file
   * exists, else `application`; no output is set directly.
   */
  lemma LayoutRendered(view: ViewSel, data: Data, layout: LayoutSel, asides: Data, host: Host)
    requires view.ViewName? && layout != NoLayout
    ensures var t := ViewTrace(view, data, layout, asides, host);
      var merged := LayoutData(ViewPath(view.name, host.router), data, asides, host.render);
      var c := host.router.controller;
      var explicit := layout.LayoutName? && !PhpEmpty(layout.name);
      && (forall j :: 0 <= j < |t| ==> (t[j].Render? <==> j == |t| - 1) && !t[j].SetOutput?)
      && (explicit ==> t[|t| - 1] == Render("layouts/" + layout.name, merged))
      && (!explicit && LayoutFile(c) in host.files ==> t[|t| - 1] == Render("layouts/" + c, merged))
      && (!explicit && LayoutFile(c) !in host.files ==> t[|t| - 1] == Render("layouts/application", merged))
  {
    ViewTraceShape(view, data, layout, asides, host);
    var t := ViewTrace(view, data, layout, asides, host);
    var merged := LayoutData(ViewPath(view.name, host.router), data, asides, host.render);
    assert t[|t| - 1] == Render("layouts/" + ChooseLayout(layout, host.router.controller, host.files), merged);
  }

  /**
   * With the layout FALSE, the asides are still captured, the last call
   * sets the output to the primary view's text, and nothing is rendered
   * into the response.
   */
  lemma LayoutDisabled(view: ViewSel, data: Data, layout: LayoutSel, asides: Data, host: Host)
    requires view.ViewName? && layout == NoLayout
    ensures var t := ViewTrace(view, data, layout, asides, host);
      && (forall j :: 0 <= j < |t| ==> (t[j].SetOutput? <==> j == |t| - 1) && !t[j].Render?)
      && t[|t| - 1] == SetOutput(host.render(ViewPath(view.name, host.router), data))
      && (forall i :: 0 <= i < |asides| ==> t[i + 1] == Capture(asides[i].1, data))
  {
    ViewTraceShape(view, data, layout, asides, host);
  }

  /**
   * The merged data: `yield` and every `yield_<name>` hold the texts
   * rendered with the original data, overriding caller keys of the same
   * name; every other caller key keeps its value; the caller's keys come
   * first, in their order; no key occurs twice.
   */
  lemma LayoutDataFacts(path: string, data: Data, asides: Data, render: (string, Data) -> string)
    requires Unique(data) && Unique(asides)
    ensures var merged := LayoutData(path, data, asides, render);
      && Lookup(merged, "yield") == Some(render(path, data))
      && (forall i :: 0 <= i < |asides| ==> Lookup(merged, YieldKey(asides[i].0)) == Some(render(asides[i].1, data)))
      && (forall k :: k != "yield" && k !in YieldKeys(asides) ==> Lookup(merged, k) == Lookup(data, k))
      && |data| <= |merged| && Keys(merged)[..|data|] == Keys(data)
      && Unique(merged)
  {
    var local := LocalData(render(path, data), asides, data, render);
    LocalDataKeys(render(path, data), asides, data, render);
    LocalDataYield(render(path, data), asides, data, render);
    forall i | 0 <= i < |asides|
      ensures Lookup(local, YieldKey(asides[i].0)) == Some(render(asides[i].1, data))
    {
      LocalDataAside(render(path, data), asides, data, render, i);
    }
    MergeKeys(data, local);
    forall k ensures Lookup(Merge(data, local), k) == if HasKey(local, k) then Lookup(local, k) else Lookup(data, k) {
      MergeLookup(data, local, k);
    }
  }
}
