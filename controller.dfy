/**
 * The base controller: dispatch of a request to an action with its before
 * and after filters, or to a not-found handler, followed by view loading.
 * The framework calls each step makes are appended to `trace`.
 */
module Controller {
  import opened PhpArray
  import opened Framework
  import opened Filters
  import opened Views

  /** The two phases `_run_filters` is called for: `'before'` and `'after'`. */
  datatype Phase = Before | After

  /** The controller's configuration fields at one moment. */
  datatype Settings = Settings(
    view: ViewSel,
    data: Data,
    layout: LayoutSel,
    asides: Data,
    beforeFilters: FilterList,
    afterFilters: FilterList)

  /** The page `show_404` is given: `strtolower(get_class($this)) . '/' . $method`. */
  function NotFoundPage(className: string, action: string): string
  {
    Lower(className) + "/" + action
  }

  /** The calls `_remap` makes before it loads the view. */
  function DispatchTrace(s: Settings, host: Host, action: string, params: seq<string>): seq<Effect>
  {
    if action in host.methods then
      FilterTrace(s.beforeFilters, action, params) + [CallAction(action, params)]
      + FilterTrace(s.afterFilters, action, params)
    else if "_404" in host.methods then [Call404(action)]
    else [ShowNotFound(NotFoundPage(host.className, action))]
  }

  /** The calls `_remap($method, $parameters)` makes. */
  function RemapTrace(s: Settings, host: Host, action: string, params: seq<string>): seq<Effect>
  {
    DispatchTrace(s, host, action, params) + ViewTrace(s.view, s.data, s.layout, s.asides, host)
  }

  /** Where the calls of each kind sit in filter calls, one action call, filter calls and view calls. */
  lemma ActionTraceKinds(before: seq<Effect>, call: Effect, after: seq<Effect>, rest: seq<Effect>)
    requires forall e :: e in before ==> e.RunFilter?
    requires call.CallAction?
    requires forall e :: e in after ==> e.RunFilter?
    requires forall j :: 0 <= j < |rest| ==> IsViewCall(rest[j])
    ensures var t := before + [call] + after + rest;
      forall j :: 0 <= j < |t| ==>
        && (t[j].CallAction? <==> j == |before|)
        && (t[j].RunFilter? <==> j < |before| + 1 + |after| && j != |before|)
        && !t[j].Call404? && !t[j].ShowNotFound?
  {
    var head := before + [call];
    var mid := head + after;
    var t := mid + rest;
    forall j | 0 <= j < |t|
      ensures (t[j].CallAction? <==> j == |before|)
      ensures (t[j].RunFilter? <==> j < |before| + 1 + |after| && j != |before|)
      ensures !t[j].Call404? && !t[j].ShowNotFound?
    {
      if j < |mid| {
        assert t[j] == mid[j];
        if j < |head| {
          assert mid[j] == head[j];
          if j < |before| {
            assert head[j] == before[j] && before[j] in before;
          }
        } else {
          assert mid[j] == after[j - |head|] && after[j - |head|] in after;
        }
      } else {
        assert t[j] == rest[j - |mid|];
      }
    }
  }

  /**
   * An existing action: the applicable before filters in declaration order,
   * then the action exactly once with the request's parameters, then the
   * applicable after filters, then view loading; no not-found handler runs.
   */
  lemma ExistingAction(s: Settings, host: Host, action: string, params: seq<string>)
    requires action in host.methods
    ensures var before := FilterTrace(s.beforeFilters, action, params);
      var after := FilterTrace(s.afterFilters, action, params);
      var t := RemapTrace(s, host, action, params);
      && t == before + [CallAction(action, params)] + after + ViewTrace(s.view, s.data, s.layout, s.asides, host)
      && (forall j :: 0 <= j < |t| ==> (t[j].CallAction? <==> j == |before|))
      && (forall j :: 0 <= j < |t| ==> (t[j].RunFilter? <==> j < |before| + 1 + |after| && j != |before|))
      && (forall j :: 0 <= j < |t| ==> !t[j].Call404? && !t[j].ShowNotFound?)
  {
    FilterTraceCalls(s.beforeFilters, action, params);
    FilterTraceCalls(s.afterFilters, action, params);
    ViewTraceCalls(s.view, s.data, s.layout, s.asides, host);
    ActionTraceKinds(FilterTrace(s.beforeFilters, action, params), CallAction(action, params),
      FilterTrace(s.afterFilters, action, params), ViewTrace(s.view, s.data, s.layout, s.asides, host));
  }

  /**
   * A missing action: no filter and no action runs; `_404` is called with
   * the attempted action alone if the controller has it, otherwise
   * `show_404` gets the lower-cased class name, a slash and the action;
   * view loading follows in both cases.
   */
  lemma MissingAction(s: Settings, host: Host, action: string, params: seq<string>)
    requires action !in host.methods
    ensures var t := RemapTrace(s, host, action, params);
      && |t| >= 1
      && ("_404" in host.methods ==> t[0] == Call404(action))
      && ("_404" !in host.methods ==> t[0] == ShowNotFound(NotFoundPage(host.className, action)))
      && t[1..] == ViewTrace(s.view, s.data, s.layout, s.asides, host)
      && (forall e :: e in t ==> !e.RunFilter? && !e.CallAction?)
  {
    var t := RemapTrace(s, host, action, params);
    var rest := ViewTrace(s.view, s.data, s.layout, s.asides, host);
    ViewTraceCalls(s.view, s.data, s.layout, s.asides, host);
    forall e | e in t ensures !e.RunFilter? && !e.CallAction? {
      var j :| 0 <= j < |t| && t[j] == e;
      if j > 0 {
        assert e == rest[j - 1];
      }
    }
  }

  /**
   * The conventional example: controller `posts`, action `show`, nothing
   * set: the view `posts/show` is captured and the `posts` layout is
   * rendered if its file exists, else `application`.
   */
  lemma PostsShowExample(host: Host)
    requires host.router == Router("", "posts", "show")
    ensures var t := ViewTrace(ViewName(""), [], LayoutName(""), [], host);
      && t[0] == Capture("posts/show", [])
      && t[1].Render?
      && ("views/layouts/posts.php" in host.files ==> t[1].template == "layouts/posts")
      && ("views/layouts/posts.php" !in host.files ==> t[1].template == "layouts/application")
  {
    assert LayoutFile("posts") == "views/layouts/posts.php";
  }

  /** A controller instance handling one request. */
  class BaseController {
    /** The framework services of this request. */
    const host: Host
    var view: ViewSel
    var data: Data
    var layout: LayoutSel
    var asides: Data
    var beforeFilters: FilterList
    var afterFilters: FilterList
    /** The framework calls made so far, in order. */
    var trace: seq<Effect>

    /** `$data` and `$asides` are PHP arrays: no key occurs twice. */
    ghost predicate Valid()
      reads this`data, this`asides
    {
      Unique(data) && Unique(asides)
    }

    function CurrentSettings(): Settings
      reads this`view, this`data, this`layout, this`asides, this`beforeFilters, this`afterFilters
    {
      Settings(view, data, layout, asides, beforeFilters, afterFilters)
    }

    /** The filter list `$this->{$what . '_filters'}`. */
    function PhaseFilters(phase: Phase): FilterList
      reads this`beforeFilters, this`afterFilters
    {
      match phase
      case Before => beforeFilters
      case After => afterFilters
    }

    /** A controller with the declared defaults: empty view and layout, no data, asides or filters. */
    constructor (host: Host)
      ensures Valid()
      ensures this.host == host && trace == []
      ensures view == ViewName("") && layout == LayoutName("")
      ensures data == [] && asides == [] && beforeFilters == [] && afterFilters == []
    {
      this.host := host;
      view := ViewName("");
      data := [];
      layout := LayoutName("");
      asides := [];
      beforeFilters := [];
      afterFilters := [];
      trace := [];
    }

    /** `_remap($method, $parameters)`. */
    method Remap(action: string, params: seq<string>)
      requires Valid()
      modifies this`trace
      ensures trace == old(trace) + RemapTrace(CurrentSettings(), host, action, params)
    {
      ghost var start := trace;
      ghost var settings := CurrentSettings();
      if action in host.methods {
        RunFilters(Before, action, params);
        trace := trace + [CallAction(action, params)];
        RunFilters(After, action, params);
        AppendAssoc(start, FilterTrace(settings.beforeFilters, action, params), [CallAction(action, params)]);
        AppendAssoc(start, FilterTrace(settings.beforeFilters, action, params) + [CallAction(action, params)],
          FilterTrace(settings.afterFilters, action, params));
      } else if "_404" in host.methods {
        trace := trace + [Call404(action)];
      } else {
        trace := trace + [ShowNotFound(NotFoundPage(host.className, action))];
      }
      ghost var dispatch := DispatchTrace(settings, host, action, params);
      assert trace == start + dispatch;
      LoadView();
      ghost var viewed := ViewTrace(settings.view, settings.data, settings.layout, settings.asides, host);
      AppendAssoc(start, dispatch, viewed);
      assert CurrentSettings() == settings;
    }

    /** `_load_view()`. */
    method LoadView()
      requires Valid()
      modifies this`trace
      ensures trace == old(trace) + ViewTrace(view, data, layout, asides, host)
    {
      if view == NoView {
        return;
      }
      ghost var start := trace;
      var path := ViewPath(view.name, host.router);
      var primary := host.render(path, data);
      trace := trace + [Capture(path, data)];
      var local := LoadAsides(Put([], "yield", primary));
      var merged := Merge(data, local);
      assert merged == LayoutData(path, data, asides, host.render);
      ghost var captured := trace;
      ghost var last: Effect;
      if layout != NoLayout {
        var name := ChooseLayout(layout, host.router.controller, host.files);
        last := Render("layouts/" + name, merged);
        trace := trace + [Render("layouts/" + name, merged)];
      } else {
        assert Lookup(merged, "yield") == Some(primary) by {
          LayoutDataFacts(path, data, asides, host.render);
        }
        var body := Lookup(merged, "yield");
        last := SetOutput(body.value);
        trace := trace + [SetOutput(body.value)];
      }
      AppendAssoc(start, [Capture(path, data)], AsideCaptures(asides, data));
      AppendAssoc(start, [Capture(path, data)] + AsideCaptures(asides, data), [last]);
    }

    /**
     * The aside loop of `_load_view`: starting from the local `$data` that
     * holds `yield`, set `yield_<name>` to each aside rendered with `$this->data`.
     */
    method LoadAsides(start: Data) returns (local: Data)
      requires start != [] && start[0].0 == "yield" && start[1..] == []
      modifies this`trace
      ensures local == LocalData(start[0].1, asides, data, host.render)
      ensures trace == old(trace) + AsideCaptures(asides, data)
    {
      local := start;
      var i := 0;
      while i < |asides|
        invariant 0 <= i <= |asides|
        invariant local == LocalData(start[0].1, asides[..i], data, host.render)
        invariant trace == old(trace) + AsideCaptures(asides[..i], data)
      {
        var (name, file) := asides[i];
        local := Put(local, YieldKey(name), host.render(file, data));
        trace := trace + [Capture(file, data)];
        assert asides[..i + 1][..i] == asides[..i];
        assert AsideCaptures(asides[..i + 1], data) == AsideCaptures(asides[..i], data) + [Capture(file, data)];
        i := i + 1;
      }
      assert asides[..i] == asides;
    }

    /** `_run_filters($what, $action, $parameters)`. */
    method RunFilters(phase: Phase, action: string, params: seq<string>)
      modifies this`trace
      ensures trace == old(trace) + FilterTrace(PhaseFilters(phase), action, params)
    {
      var filters := PhaseFilters(phase);
      for i := 0 to |filters|
        invariant trace == old(trace) + FilterTrace(filters[..i], action, params)
      {
        ghost var done := FilterTrace(filters[..i], action, params);
        var (filter, details) := filters[i];
        match details {
          case Call(target) =>
            trace := trace + [RunFilter(target, action, params)];
          case Scoped(only, except) =>
            if InArray(action, only) || !InArray(action, except) {
              trace := trace + [RunFilter(filter, action, params)];
            }
          case Inert =>
        }
        assert trace == (old(trace) + done) + Step(filters[i], action, params);
        AppendAssoc(old(trace), done, Step(filters[i], action, params));
        FilterTraceAppend(filters[..i], [filters[i]], action, params);
        assert filters[..i + 1] == filters[..i] + [filters[i]];
        assert [filters[i]][1..] == [];
      }
      assert filters[..|filters|] == filters;
    }
  }
}
