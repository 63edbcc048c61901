/**
 * The host framework as the base controller sees it: the router's view of
 * the request, the services the controller calls, and the observable
 * effects of those calls, which the model records in order.
 */
module Framework {
  import opened PhpArray

  /**
   * `$this->router`: the routing directory, and the controller class and
   * method the request was routed to (`->class`, `->method`).
   */
  datatype Router = Router(directory: string, controller: string, action: string)

  /**
   * What the controller learns from, or delegates to, the framework:
   * - `methods`: the names for which `method_exists($this, name)` holds;
   * - `className`: `get_class($this)`;
   * - `files`: the paths below APPPATH for which `file_exists` holds;
   * - `render`: the text `$this->load->view(template, data, TRUE)` returns.
   */
  datatype Host = Host(
    methods: set<string>,
    className: string,
    router: Router,
    files: set<string>,
    render: (string, Data) -> string)

  /** One observable call made while a request is dispatched. */
  datatype Effect =
      /** `$this->$name($action, $parameters)`: a filter method. */
    | RunFilter(name: string, action: string, params: seq<string>)
      /** `call_user_func_array(array($this, $name), $parameters)`: the action. */
    | CallAction(name: string, params: seq<string>)
      /** `$this->_404($method)`, with the attempted action: the controller's own not-found handler. */
    | Call404(attempted: string)
      /** `show_404($page)`: the framework's not-found page. */
    | ShowNotFound(page: string)
      /** `$this->load->view($template, $data, TRUE)`: rendering into a string. */
    | Capture(template: string, data: Data)
      /** `$this->load->view($template, $data)`: rendering into the response. */
    | Render(template: string, data: Data)
      /** `$this->output->set_output($body)`. */
    | SetOutput(body: string)

  /** Appending to a trace is associative. */
  lemma AppendAssoc<T>(a: seq<T>, b: seq<T>, c: seq<T>)
    ensures (a + b) + c == a + (b + c)
  {
  }

  predicate IsUpper(c: char)
  {
    'A' <= c <= 'Z'
  }

  /** `strtolower` on one character: ASCII letters only. */
  function LowerChar(c: char): char
  {
    if IsUpper(c) then (c as int + 32) as char else c
  }

  /** `strtolower($s)`. */
  function Lower(s: string): (r: string)
    ensures |r| == |s|
    ensures forall i :: 0 <= i < |r| ==> !IsUpper(r[i])
    ensures forall i :: 0 <= i < |r| ==> r[i] == s[i] || (IsUpper(s[i]) && r[i] as int == s[i] as int + 32)
  {
    seq(|s|, i requires 0 <= i < |s| => LowerChar(s[i]))
  }
}
