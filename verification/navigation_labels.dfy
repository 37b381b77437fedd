/** Running the navigation parser over a whole event stream, and the label
    loader that turns an empty result into an error. */
module NavigationLabels {
  import opened Wrappers
  import opened Text
  import opened NavigationParser

  /** The loader's one failure: no label was found, reported as the container
      being absent (`load_navigation_labels` raises an `AssertionError` saying
      the navigation element was not found). */
  datatype LoadError = NavigationNotFound

  /** Feeds `events` to the parser in order, starting from state `p`. */
  function Feed(p: Parser, events: seq<Event>): (q: Parser)
    ensures p.labels <= q.labels
    ensures |q.labels| <= |p.labels| + |events|
    ensures CleanLabels(p.labels) ==> CleanLabels(q.labels)
    decreases |events|
  {
    if events == [] then p else Feed(Step(p, events[0]), events[1..])
  }

  /** A freshly constructed parser (`Initial`: outside the container, no
      label open, no labels) fed the whole stream. Its labels are all stripped
      and non-empty, and together with a label still open they number at most
      the `nav_items` start tags it saw inside the container. */
  function Run(events: seq<Event>): (p: Parser)
    ensures CleanLabels(p.labels)
    ensures |p.labels| + Pending(p) <= Openings(Initial, events)
  {
    FeedLabelBound(Initial, events);
    Feed(Initial, events)
  }

  /** How many events of the stream, fed from state `p`, open a label buffer:
      the `nav_items` start tags seen while inside the container. */
  function Openings(p: Parser, events: seq<Event>): nat
    decreases |events|
  {
    if events == [] then 0
    else (if StartsLabel(p, events[0]) then 1 else 0) + Openings(Step(p, events[0]), events[1..])
  }

  /** Splitting the stream anywhere and feeding the parts one after the other
      gives the same state as feeding it whole. */
  lemma {:induction false} FeedConcat(p: Parser, a: seq<Event>, b: seq<Event>)
    ensures Feed(p, a + b) == Feed(Feed(p, a), b)
    decreases |a|
  {
    if a != [] {
      assert (a + b)[0] == a[0];
      assert (a + b)[1..] == a[1..] + b;
      FeedConcat(Step(p, a[0]), a[1..], b);
    } else {
      assert a + b == b;
    }
  }

  /** Labels found plus a label still open never exceed the buffers opened. */
  lemma {:induction false} FeedLabelBound(p: Parser, events: seq<Event>)
    ensures |Feed(p, events).labels| + Pending(Feed(p, events)) <= |p.labels| + Pending(p) + Openings(p, events)
    decreases |events|
  {
    if events != [] {
      FeedLabelBound(Step(p, events[0]), events[1..]);
    }
  }

  /** `load_navigation_labels` after the file has been read and tokenized:
      the collected labels, or an error when there are none. */
  function LoadNavigationLabels(events: seq<Event>): (r: Result<seq<string>, LoadError>)
    ensures r.Failure? <==> Run(events).labels == []
    ensures r.Success? ==> r.value == Run(events).labels
    ensures r.Success? ==> CleanLabels(r.value) && 0 < |r.value| <= Openings(Initial, events)
  {
    var p := Run(events);
    if p.labels == [] then Failure(NavigationNotFound) else Success(p.labels)
  }

  /** The text of the stream: its `Data` events concatenated in order. */
  function Texts(events: seq<Event>): string
    decreases |events|
  {
    if events == [] then []
    else (if events[0].Data? then events[0].text else []) + Texts(events[1..])
  }

  /** An event that never closes or restarts an open label: text, an end tag
      other than `p`/`li`/`span`, or a start tag that is the container tag or
      is not marked `nav_items`. */
  predicate KeepsLabelOpen(e: Event) {
    match e
    case Data(_) => true
    case EndTag(tag) => !IsLabelTag(tag)
    case StartTag(tag, attrs) => OpensContainer(tag, attrs) || !MarksItem(attrs)
  }

  /** While a label is open, a stream of events that keep it open appends
      exactly the stream's text to the label and adds no label. */
  lemma {:induction false} FeedCollects(p: Parser, events: seq<Event>)
    requires p.currentLabel.Some?
    requires forall i :: 0 <= i < |events| ==> KeepsLabelOpen(events[i])
    ensures Feed(p, events).currentLabel == Some(p.currentLabel.value + Texts(events))
    ensures Feed(p, events).labels == p.labels
    decreases |events|
  {
    if events == [] {
      assert p.currentLabel.value + [] == p.currentLabel.value;
    } else {
      var q := Step(p, events[0]);
      var x := if events[0].Data? then events[0].text else [];
      assert KeepsLabelOpen(events[0]);
      assert p.currentLabel.value + [] == p.currentLabel.value;
      assert q.currentLabel == Some(p.currentLabel.value + x) && q.labels == p.labels;
      assert forall i :: 0 <= i < |events[1..]| ==> events[1..][i] == events[i + 1];
      FeedCollects(q, events[1..]);
      assert Texts(events) == x + Texts(events[1..]);
      assert p.currentLabel.value + x + Texts(events[1..]) == p.currentLabel.value + (x + Texts(events[1..]));
    }
  }

  /** The label a stream produces: everything from an open label through the
      next `p`/`li`/`span` end tag yields the stripped concatenation of the
      buffered text and the stream's text, or nothing when that is all
      whitespace, and leaves no label open. */
  lemma FeedFinishesLabel(p: Parser, events: seq<Event>, tag: string)
    requires p.currentLabel.Some?
    requires forall i :: 0 <= i < |events| ==> KeepsLabelOpen(events[i])
    requires IsLabelTag(tag)
    ensures Feed(p, events + [EndTag(tag)]).currentLabel.None?
    ensures Feed(p, events + [EndTag(tag)]).labels ==
      p.labels + (var text := p.currentLabel.value + Texts(events);
                  if AllSpace(text) then [] else [Strip(text)])
  {
    FeedConcat(p, events, [EndTag(tag)]);
    FeedCollects(p, events);
    var q := Feed(p, events);
    assert Feed(q, [EndTag(tag)]) == Step(q, EndTag(tag));
  }

  /** Whether some event of the stream is a start tag that opens the container. */
  predicate HasContainer(events: seq<Event>) {
    exists i :: 0 <= i < |events| && events[i].StartTag? && OpensContainer(events[i].tag, events[i].attrs)
  }

  /** Whether every `nav_items` start tag of the stream is a container tag. */
  predicate NoItems(events: seq<Event>) {
    forall i :: 0 <= i < |events| && events[i].StartTag? && MarksItem(events[i].attrs) ==>
      OpensContainer(events[i].tag, events[i].attrs)
  }

  /** Outside the container and with no label open, a stream without a
      container tag leaves the parser exactly as it was. */
  lemma {:induction false} FeedWithoutContainer(p: Parser, events: seq<Event>)
    requires !p.inNavigation && p.currentLabel.None?
    requires !HasContainer(events)
    ensures Feed(p, events) == p
    decreases |events|
  {
    if events != [] {
      assert Step(p, events[0]) == p;
      assert !HasContainer(events[1..]) by {
        forall i | 0 <= i < |events[1..]|
          ensures !(events[1..][i].StartTag? && OpensContainer(events[1..][i].tag, events[1..][i].attrs))
        {
          assert events[1..][i] == events[i + 1];
        }
      }
      FeedWithoutContainer(p, events[1..]);
    }
  }

  /** Without any `nav_items` tag no buffer opens, so no label is added. */
  lemma {:induction false} FeedWithoutItems(p: Parser, events: seq<Event>)
    requires p.currentLabel.None?
    requires NoItems(events)
    ensures Feed(p, events).currentLabel.None? && Feed(p, events).labels == p.labels
    decreases |events|
  {
    if events != [] {
      var q := Step(p, events[0]);
      assert q.currentLabel.None? && q.labels == p.labels;
      assert NoItems(events[1..]) by {
        forall i | 0 <= i < |events[1..]| && events[1..][i].StartTag? && MarksItem(events[1..][i].attrs)
          ensures OpensContainer(events[1..][i].tag, events[1..][i].attrs)
        {
          assert events[1..][i] == events[i + 1];
        }
      }
      FeedWithoutItems(q, events[1..]);
    }
  }

  /** A document with no navigation container fails to load. */
  lemma MissingContainerFails(events: seq<Event>)
    requires !HasContainer(events)
    ensures LoadNavigationLabels(events) == Failure(NavigationNotFound)
  {
    FeedWithoutContainer(Initial, events);
  }

  /** A document whose container holds no `nav_items` element fails to load. */
  lemma MissingItemsFails(events: seq<Event>)
    requires NoItems(events)
    ensures LoadNavigationLabels(events) == Failure(NavigationNotFound)
  {
    FeedWithoutItems(Initial, events);
  }
}
