# CodeIgniter base controller: dispatch, filters and view loading

This project models `MY_Controller`, a base class for CodeIgniter
controllers. Its `_remap` override does three things for a request:

- it routes the request to the action method it names, running the
  controller's *before* and *after* filters around the action;
- if there is no such method, it falls back to the controller's own `_404`
  handler or to the framework's `show_404`;
- in every case it then loads the view. `_load_view` renders the
  conventional or configured view, renders each declared aside
  ("partial") into a `yield_<name>` variable, merges those variables over
  the controller's `$data`, and wraps the result in a layout. Without a
  layout it writes the view's text straight to the output.

The controller talks to the framework, and the model records each of those
calls as an `Effect`, in order: a filter call, the action call, `_404`,
`show_404`, a view rendered into a string, a view rendered into the
response, and the setting of the output. The framework itself is given as
inputs (`Framework.Host`):

- the set of method names the controller has (`method_exists`);
- the class name (`get_class`);
- the router's directory, class and method;
- the set of files below the application path that exist (`file_exists`);
- an uninterpreted function giving the text a template renders to with
  given data (`$this->load->view(..., TRUE)`).

Modules:

- `PhpArray` holds PHP arrays with string keys, as ordered association
  lists. It defines assignment (`Put`: overwrite in place or append),
  lookup, and `array_merge` (`Merge`), with their laws.
- `Framework` holds the router, the host services, the `Effect` datatype
  and `strtolower`.
- `Filters` holds the filter entry kinds, the applicability rule, and
  `FilterTrace`, the calls one phase of `_run_filters` makes, with its
  lemmas.
- `Views` holds the view and layout selection, the local `$data` built by
  the aside loop (`LocalData`), the merged layout data (`LayoutData`), and
  `ViewTrace`, the calls `_load_view` makes, with its lemmas.
- `Controller` holds the class `BaseController`:
  - it has the six configuration fields of the PHP class and a `trace` of
    effects;
  - the methods `Remap`, `LoadView`, `LoadAsides` and `RunFilters` are the
    PHP methods as loops and branches over those fields;
  - each method is proved to append exactly the specification function's
    trace (`RemapTrace`, `ViewTrace`, `AsideCaptures`, `FilterTrace`);
  - the lemmas beside the class state what those traces are: call order,
    chosen names and merged data.

Some modelling notes:

- The applicability rule is modelled literally: `in_array($action, only) ||
  !in_array($action, except)`. A missing list reads as null, and
  `in_array` on null is falsy. So an entry with only an `'only'` list runs
  for every action (`Filters.ApplicabilityRule`,
  `Filters.OnlyListDoesNotRestrict`).
- PHP's `empty()` on a string holds for `""` and `"0"`. Both select the
  conventional view, and both make a string layout fall through to
  guessing.
- `$this->layout` has three cases: FALSE, a string, or any other value. Any
  other value (`LayoutOther`) also falls through to guessing.
- `LoadAsides` is the `foreach` over `$this->asides` in `_load_view`,
  written as a method of its own. The `!empty($this->asides)` guard around
  it changes nothing, because the loop does nothing on an empty array.
- `Valid()` says that `$data` and `$asides` have no key twice. Every PHP
  array has this property, and `Remap` and `LoadView` need it.

## Model

| member | source | states |
|---|---|---|
| `Controller.BaseController.constructor` | core/MY_Controller.php:21-41 | the declared defaults: an empty view and layout, and no data, asides or filters |
| `Controller.BaseController.Remap` | core/MY_Controller.php:52-73 | appends exactly `RemapTrace`: the dispatch calls for the three cases, then the view-loading calls; the configuration is unchanged |
| `Controller.BaseController.LoadView` | core/MY_Controller.php:79-127 | appends exactly `ViewTrace` for the current view, data, layout and asides |
| `Controller.BaseController.LoadAsides` | core/MY_Controller.php:94-100 | the loop leaves the local data equal to `LocalData`, with `yield_<name>` set per aside in order; it appends one capture per aside, rendered with `$this->data` |
| `Controller.BaseController.RunFilters` | core/MY_Controller.php:129-148 | appends exactly `FilterTrace` of the phase's list: each entry visited in declaration order, and each applicable one making one call |
| `Controller.ExistingAction` | core/MY_Controller.php:54-58 | for an existing action, the trace is the before-filter calls, then the action once with the request's parameters, then the after-filter calls, then view loading; the action call sits at exactly one position; filter calls sit only before and after it; no not-found handler runs |
| `Controller.MissingAction` | core/MY_Controller.php:60-72 | for a missing action, no filter and no action runs; `_404` gets only the attempted action if it exists, otherwise `show_404` gets the lower-cased class name, a slash and the action; view loading follows in both cases |
| `Controller.PostsShowExample` | core/MY_Controller.php:88-119 | with nothing configured, controller `posts` and action `show` capture `posts/show`, then render the layout `layouts/posts` if its file exists, else `layouts/application` |
| `Views.ViewTraceCalls` | core/MY_Controller.php:79-127 | `_load_view` makes only render and output calls |
| `Views.NoViewNoEffects` | core/MY_Controller.php:82-85 | no render and no output call is made if, and only if, the view is FALSE |
| `Views.ViewTraceShape` | core/MY_Controller.php:88-100 | otherwise the first call renders the set non-empty view or `directory + class + '/' + method`; then one capture per aside, in order, with the original data; then exactly one final call |
| `Views.LayoutRendered` | core/MY_Controller.php:106-122 | when a layout is set, the last call, and no other, renders `layouts/<L>` with the merged data: L is a non-empty string layout whatever files exist, else the class if its layout file exists, else `application`; the output is never set directly |
| `Views.LayoutDisabled` | core/MY_Controller.php:123-126 | when the layout is FALSE, the asides are still captured, the last call and no other sets the output to the primary view's text, and no layout is rendered |
| `Views.LayoutDataFacts` | core/MY_Controller.php:91-103 | in the merged data, `yield` holds the view's text and each `yield_<name>` its aside's text, both rendered with the original data and overriding same-named caller keys; every other caller key keeps its value; the caller's keys come first, in order; no key occurs twice |
| `Views.LocalDataKeys` | core/MY_Controller.php:91-100 | the local data has exactly the keys `yield` and `yield_<name>` per aside, in that order, with none twice |
| `Views.LocalDataYield` | core/MY_Controller.php:91 | the local data maps `yield` to the primary view's text, whatever asides follow |
| `Views.LocalDataAside` | core/MY_Controller.php:96-98 | the local data maps aside `i`'s `yield_<name>` to that aside's text, rendered with the original data |
| `Filters.FilterTraceAppend` | core/MY_Controller.php:133-147 | running two filter lists in sequence makes the calls of their concatenation |
| `Filters.FilterTraceAt` | core/MY_Controller.php:133-147 | entry `i` makes its calls after those of the entries before it and before those of the entries after it |
| `Filters.FilterTraceCalls` | core/MY_Controller.php:137-144 | at most one call per entry; every call is a filter call with the request's action and parameters |
| `Filters.FilterRunsIff` | core/MY_Controller.php:133-147 | a method is called if, and only if, some entry applies to the action and invokes that method: a string entry its value, an array entry its key |
| `Filters.CallAlwaysRuns` | core/MY_Controller.php:135-138 | a string entry calls the method its value names, for every action |
| `Filters.ApplicabilityRule` | core/MY_Controller.php:139-145 | an array entry applies iff the action is in `only` or not in `except`, where a missing list never contains the action; so an entry with only an `only` list applies to every action |
| `Filters.OnlyListDoesNotRestrict` | core/MY_Controller.php:141-144 | the entry `'auth' => array('only' => array('edit'))` still calls `auth` for the action `index` |
| `Framework.Lower` | core/MY_Controller.php:68 | `strtolower` keeps the length, leaves no upper-case ASCII letter, and changes only upper-case letters, to their lower-case forms |
| `PhpArray.Lookup` | core/MY_Controller.php:125 | `$data['yield']` yields a value iff the key is present, and that value is stored under the key |
| `PhpArray.PutKeys` | core/MY_Controller.php:98 | assigning to a key keeps the key order, and appends the key only if it is new |
| `PhpArray.PutLookup` | core/MY_Controller.php:98 | after an assignment, the key reads as the new value and every other key as before |
| `PhpArray.PutUnique` | core/MY_Controller.php:98 | assignment never creates a duplicate key |
| `PhpArray.MergeLookup` | core/MY_Controller.php:103 | in `array_merge($a, $b)` a key has its value from `$b` if `$b` has it, else from `$a` |
| `PhpArray.MergeKeys` | core/MY_Controller.php:103 | `array_merge($a, $b)` keeps `$a`'s keys first, in order; it has exactly the keys of both; it has no key twice when `$a` has none |

## Left out

- Template rendering, `$this->load->view`, `$this->output`, the
  application path and the filesystem are framework services. Rendering is
  an uninterpreted function of template and data, and `file_exists` is a
  set of existing paths.
- What the action, the filters and `_404` do when called. The model records
  each call and assumes it changes none of the controller's fields.
- `call_user_func_array` spreading the parameters into arguments. The model
  records the parameter list as given.
- `method_exists` ignoring letter case. The model matches method names
  exactly.
- The fatal error PHP raises when a filter names a method that does not
  exist. The model records the call as made.
- `show_404` ending the request in CodeIgniter. The file as written goes on
  to `_load_view`, and so does the model.
- Warnings from the `@` operator, and the `TypeError` that PHP 8 raises for
  `in_array` on null. The model keeps the outcome where a missing list is
  falsy in `in_array`.
- Loose comparison in `in_array`, such as numeric strings equal to
  integers. The model compares strings exactly.
- Values of `$data` and `$asides` other than strings, and integer keys:
  `array_merge` renumbers integer keys, and the model has string keys only.
- A `$this->view` that is neither FALSE nor a string. Filter entries other
  than strings and arrays are modelled, as `Inert`, and make no call.
- `strtolower` outside ASCII. No locale-dependent case mapping is modelled.
- Loading of models and helpers. This file contains no such code.
