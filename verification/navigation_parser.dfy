/** The fallback navigation-label extractor: a state machine driven by the
    start-tag, end-tag and text events of an HTML tokenizer. Each handler is a
    pure function from the parser state before the event to the state after. */
module NavigationParser {
  import opened Wrappers
  import opened Text
  import opened Attributes

  /** The tag names whose end tag finishes a label: `p`, `li` and `span`. */
  predicate IsLabelTag(tag: string) {
    tag == "p" || tag == "li" || tag == "span"
  }

  /** One callback from the tokenizer. Tag and attribute names arrive already
      lower-cased; text arrives with character references resolved. */
  datatype Event =
    | StartTag(tag: string, attrs: seq<Attr>)
    | EndTag(tag: string)
    | Data(text: string)

  /** The parser's three fields: whether the navigation container is open, the
      label being collected (`None` when no label is open, which differs from
      an open but still empty label), and the labels finished so far. */
  datatype Parser = Parser(inNavigation: bool, currentLabel: Option<string>, labels: seq<string>)

  /** The state of a freshly constructed parser. */
  const Initial: Parser := Parser(false, None, [])

  /** A start tag that opens the navigation container: a `div` whose `id` is
      `navigation`. */
  predicate OpensContainer(tag: string, attrs: seq<Attr>) {
    tag == "div" && Get(ToDict(attrs), "id") == Some("navigation")
  }

  /** A start tag whose `class` attribute is exactly `nav_items`. */
  predicate MarksItem(attrs: seq<Attr>) {
    Get(ToDict(attrs), "class") == Some("nav_items")
  }

  /** A label is kept only when it is non-empty and already stripped. */
  predicate CleanLabel(s: string) {
    s != [] && Strip(s) == s
  }

  predicate CleanLabels(labels: seq<string>) {
    forall i :: 0 <= i < |labels| ==> CleanLabel(labels[i])
  }

  /** 1 when a label is being collected, 0 otherwise. */
  function Pending(p: Parser): nat {
    if p.currentLabel.Some? then 1 else 0
  }

  /** Whether `e`, arriving in state `p`, opens a new label buffer: a start tag
      marked `nav_items` seen inside the container, other than a tag that
      itself opens the container. */
  predicate StartsLabel(p: Parser, e: Event) {
    e.StartTag? && !OpensContainer(e.tag, e.attrs) && p.inNavigation && MarksItem(e.attrs)
  }

  function HandleStartTag(p: Parser, tag: string, attrs: seq<Attr>): (q: Parser)
    ensures q.labels == p.labels
    // the container tag only opens the container, even when it is also marked nav_items
    ensures OpensContainer(tag, attrs) ==> q.inNavigation && q.currentLabel == p.currentLabel
    // a nav_items tag inside the container restarts the buffer, discarding what it held
    ensures !OpensContainer(tag, attrs) && p.inNavigation && MarksItem(attrs) ==>
              q.currentLabel == Some("") && q.inNavigation
    // every other start tag, and any nav_items tag outside the container, is ignored
    ensures !OpensContainer(tag, attrs) && !(p.inNavigation && MarksItem(attrs)) ==> q == p
  {
    var d := ToDict(attrs);
    if tag == "div" && Get(d, "id") == Some("navigation") then
      p.(inNavigation := true)
    else if p.inNavigation && Get(d, "class") == Some("nav_items") then
      p.(currentLabel := Some(""))
    else
      p
  }

  function HandleEndTag(p: Parser, tag: string): (q: Parser)
    // closing a label element with a buffer open finishes the label ...
    ensures p.currentLabel.Some? && IsLabelTag(tag) ==>
              && q.currentLabel.None?
              && q.inNavigation == p.inNavigation
              && q.labels == p.labels + (if AllSpace(p.currentLabel.value) then [] else [Strip(p.currentLabel.value)])
    // ... and nothing else ever adds a label
    ensures !(p.currentLabel.Some? && IsLabelTag(tag)) ==> q.labels == p.labels && q.currentLabel == p.currentLabel
    // a div end tag always closes the container, whether or not a buffer is open,
    // and leaves the buffer and the labels alone
    ensures tag == "div" ==> q == p.(inNavigation := false)
    // any other end tag without an open label changes nothing
    ensures tag != "div" && !(p.currentLabel.Some? && IsLabelTag(tag)) ==> q == p
  {
    if p.currentLabel.Some? && IsLabelTag(tag) then
      var text := Strip(p.currentLabel.value);
      p.(labels := if text != [] then p.labels + [text] else p.labels, currentLabel := None)
    else if p.inNavigation && tag == "div" then
      p.(inNavigation := false)
    else
      p
  }

  function HandleData(p: Parser, data: string): (q: Parser)
    ensures q.inNavigation == p.inNavigation && q.labels == p.labels
    ensures q.currentLabel.Some? <==> p.currentLabel.Some?
    // text is appended verbatim, without any normalisation
    ensures p.currentLabel.Some? ==> q.currentLabel.value == p.currentLabel.value + data
  {
    if p.currentLabel.Some? then p.(currentLabel := Some(p.currentLabel.value + data)) else p
  }

  /** Dispatches one tokenizer event to its handler. */
  function Step(p: Parser, e: Event): (q: Parser)
    // labels are append-only: the old list is a prefix, at most one is added
    ensures p.labels <= q.labels && |q.labels| <= |p.labels| + 1
    // and only a label end tag with an open buffer adds one
    ensures |q.labels| > |p.labels| ==> e.EndTag? && IsLabelTag(e.tag) && p.currentLabel.Some?
    // every label ever added is stripped and non-empty
    ensures CleanLabels(p.labels) ==> CleanLabels(q.labels)
    // an added label consumes an open buffer, and a buffer is opened only by StartsLabel
    ensures |q.labels| + Pending(q) <= |p.labels| + Pending(p) + (if StartsLabel(p, e) then 1 else 0)
    // the container flag is raised only by the container's own start tag
    ensures q.inNavigation && !p.inNavigation ==> e.StartTag? && OpensContainer(e.tag, e.attrs)
  {
    match e
    case StartTag(tag, attrs) => HandleStartTag(p, tag, attrs)
    case EndTag(tag) =>
      EndTagKeepsLabelsClean(p, tag);
      HandleEndTag(p, tag)
    case Data(text) => HandleData(p, text)
  }

  /** A label appended by an end tag is already stripped, so clean labels stay clean. */
  lemma EndTagKeepsLabelsClean(p: Parser, tag: string)
    ensures CleanLabels(p.labels) ==> CleanLabels(HandleEndTag(p, tag).labels)
  {
    if p.currentLabel.Some? && IsLabelTag(tag) && !AllSpace(p.currentLabel.value) {
      StripIdempotent(p.currentLabel.value);
    }
  }
}
