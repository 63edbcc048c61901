/**
 * The before/after filter lists of the base controller and the calls
 * `_run_filters` makes for one phase of one request.
 */
module Filters {
  import opened PhpArray
  import opened Framework

  /** The value of one entry of `$before_filters` or `$after_filters`. */
  datatype FilterEntry =
      /** A string: it names the method to call. */
    | Call(target: string)
      /**
       * An array: the entry's key names the method; `only` and `except`
       * are its 'only' and 'except' lists, None where the key is missing.
       */
    | Scoped(only: Option<seq<string>>, except: Option<seq<string>>)
      /** Any other PHP value: neither branch of the loop applies. */
    | Inert

  /** An ordered filter list: each entry's key with its value. */
  type FilterList = seq<(string, FilterEntry)>

  /**
   * `in_array($x, @$list)`: a missing list reads as null, and `in_array`
   * on null gives a falsy result.
   */
  predicate InArray(x: string, list: Option<seq<string>>)
  {
    list.Some? && x in list.value
  }

  /** Whether an entry runs for `action`: the condition of the loop body, literally. */
  predicate Applies(e: FilterEntry, action: string)
  {
    match e
    case Call(_) => true
    case Scoped(only, except) => InArray(action, only) || !InArray(action, except)
    case Inert => false
  }

  /** The method an entry invokes: a string entry its value, an array entry its key. */
  function Invoked(f: (string, FilterEntry)): string
  {
    if f.1.Call? then f.1.target else f.0
  }

  /** The calls one entry makes. */
  function Step(f: (string, FilterEntry), action: string, params: seq<string>): seq<Effect>
  {
    if Applies(f.1, action) then [RunFilter(Invoked(f), action, params)] else []
  }

  /** The calls `_run_filters` makes for a filter list: its entries' calls in declaration order. */
  function FilterTrace(fs: FilterList, action: string, params: seq<string>): seq<Effect>
    decreases |fs|
  {
    if fs == [] then [] else Step(fs[0], action, params) + FilterTrace(fs[1..], action, params)
  }

  /** Running two lists one after the other makes the calls of their concatenation. */
  lemma {:induction false} FilterTraceAppend(a: FilterList, b: FilterList, action: string, params: seq<string>)
    ensures FilterTrace(a + b, action, params) == FilterTrace(a, action, params) + FilterTrace(b, action, params)
    decreases |a|
  {
    if a == [] {
      assert a + b == b;
    } else {
      assert (a + b)[0] == a[0];
      assert (a + b)[1..] == a[1..] + b;
      FilterTraceAppend(a[1..], b, action, params);
    }
  }

  /**
   * Entry `i` makes its call exactly once, after the calls of the entries
   * declared before it and before those of the entries declared after it.
   */
  lemma FilterTraceAt(fs: FilterList, i: nat, action: string, params: seq<string>)
    requires i < |fs|
    ensures FilterTrace(fs, action, params) ==
      FilterTrace(fs[..i], action, params) + Step(fs[i], action, params) + FilterTrace(fs[i + 1..], action, params)
  {
    assert fs == fs[..i] + ([fs[i]] + fs[i + 1..]);
    FilterTraceAppend(fs[..i], [fs[i]] + fs[i + 1..], action, params);
    FilterTraceAppend([fs[i]], fs[i + 1..], action, params);
    assert [fs[i]][1..] == [];
  }

  /** Every call the filters make is a filter call with the action and the request's parameters. */
  lemma {:induction false} FilterTraceCalls(fs: FilterList, action: string, params: seq<string>)
    ensures |FilterTrace(fs, action, params)| <= |fs|
    ensures forall e :: e in FilterTrace(fs, action, params) ==>
      e.RunFilter? && e.action == action && e.params == params
    decreases |fs|
  {
    if fs != [] {
      FilterTraceCalls(fs[1..], action, params);
    }
  }

  /** A method is called by the filters iff some entry applies to the action and invokes it. */
  lemma {:induction false} FilterRunsIff(fs: FilterList, action: string, params: seq<string>, name: string)
    ensures RunFilter(name, action, params) in FilterTrace(fs, action, params) <==>
      exists i :: 0 <= i < |fs| && Applies(fs[i].1, action) && Invoked(fs[i]) == name
    decreases |fs|
  {
    if fs != [] {
      FilterRunsIff(fs[1..], action, params, name);
      if exists i :: 0 <= i < |fs| && Applies(fs[i].1, action) && Invoked(fs[i]) == name {
        var i :| 0 <= i < |fs| && Applies(fs[i].1, action) && Invoked(fs[i]) == name;
        if i > 0 {
          assert fs[1..][i - 1] == fs[i];
        }
      }
      if exists i :: 0 <= i < |fs[1..]| && Applies(fs[1..][i].1, action) && Invoked(fs[1..][i]) == name {
        var i :| 0 <= i < |fs[1..]| && Applies(fs[1..][i].1, action) && Invoked(fs[1..][i]) == name;
        assert fs[i + 1] == fs[1..][i];
      }
    }
  }

  /** A string entry runs its method for every action. */
  lemma CallAlwaysRuns(fs: FilterList, i: nat, action: string, params: seq<string>)
    requires i < |fs| && fs[i].1.Call?
    ensures RunFilter(fs[i].1.target, action, params) in FilterTrace(fs, action, params)
  {
    FilterRunsIff(fs, action, params, fs[i].1.target);
  }

  /**
   * The applicability rule as written: an entry with an 'only' list and no
   * 'except' list runs for every action, whether or not the action is listed,
   * because a missing 'except' list excludes nothing; an entry with only an
   * 'except' list runs exactly for the actions not in it.
   */
  lemma ApplicabilityRule(only: seq<string>, except: seq<string>, action: string)
    ensures Applies(Scoped(Some(only), None), action)
    ensures Applies(Scoped(None, Some(except)), action) <==> action !in except
    ensures Applies(Scoped(Some(only), Some(except)), action) <==> action in only || action !in except
    ensures Applies(Scoped(None, None), action)
    ensures !Applies(Inert, action)
  {
  }

  /** The rule on a concrete list: `'auth' => array('only' => array('edit'))` still runs for `index`. */
  lemma OnlyListDoesNotRestrict()
    ensures FilterTrace([("auth", Scoped(Some(["edit"]), None))], "index", []) == [RunFilter("auth", "index", [])]
  {
  }
}
