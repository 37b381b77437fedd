/** Concrete event streams that pin down the extractor's edge cases: text from
    nested markup is concatenated, whitespace-only items vanish, and the
    container is closed by the first `div` end tag, even one nested inside it. */
module NavigationExamples {
  import opened Wrappers
  import opened Text
  import opened Attributes
  import opened NavigationParser
  import opened NavigationLabels

  /** `<div id="navigation">` */
  function Container(): Event {
    StartTag("div", [Attr("id", Some("navigation"))])
  }

  /** `<tag class="nav_items">` */
  function Item(tag: string): Event {
    StartTag(tag, [Attr("class", Some("nav_items"))])
  }

  lemma TextsCons(e: Event, rest: seq<Event>)
    ensures Texts([e] + rest) == (if e.Data? then e.text else []) + Texts(rest)
  {
    assert ([e] + rest)[0] == e;
    assert ([e] + rest)[1..] == rest;
  }

  lemma FeedCons(p: Parser, e: Event, rest: seq<Event>)
    ensures Feed(p, [e] + rest) == Feed(Step(p, e), rest)
  {
    assert ([e] + rest)[0] == e;
    assert ([e] + rest)[1..] == rest;
  }

  lemma ContainerStep(p: Parser)
    ensures Step(p, Container()) == p.(inNavigation := true)
  {
    assert Get(ToDict([Attr("id", Some("navigation"))]), "id") == Some("navigation");
  }

  /** An item tag has no `id`, so even a `div` item is not the container. */
  lemma ItemStep(p: Parser, tag: string)
    requires p.inNavigation
    ensures Step(p, Item(tag)) == p.(currentLabel := Some(""))
  {
    assert Get(ToDict([Attr("class", Some("nav_items"))]), "class") == Some("nav_items");
    assert Get(ToDict([Attr("class", Some("nav_items"))]), "id") == None;
  }

  /** Opening the container and then an item leaves an empty label open. */
  lemma OpenItem(tag: string, rest: seq<Event>)
    ensures Feed(Initial, [Container(), Item(tag)] + rest) == Feed(Parser(true, Some(""), []), rest)
  {
    var p1 := Parser(true, None, []);
    ContainerStep(Initial);
    ItemStep(p1, tag);
    assert [Container(), Item(tag)] + rest == [Container()] + ([Item(tag)] + rest);
    FeedCons(Initial, Container(), [Item(tag)] + rest);
    FeedCons(p1, Item(tag), rest);
  }

  /** A start tag without attributes, even `div`, changes nothing. */
  lemma PlainStartStep(p: Parser, tag: string)
    ensures Step(p, StartTag(tag, [])) == p
  {
    assert Get(ToDict([]), "class") == None && Get(ToDict([]), "id") == None;
  }

  /** The opening half of NestedMarkupIsFlattened: up to the inline element's
      text, the open label holds `a + b`. */
  lemma NestedMarkupOpening(a: string, t: string, b: string)
    ensures Feed(Initial, [Container(), Item("li"), Data(a), StartTag(t, []), Data(b)])
            == Parser(true, Some(a + b), [])
  {
    var t1 := [Data(b)];
    var t2 := [StartTag(t, [])] + t1;
    var t3 := [Data(a)] + t2;
    var p2 := Parser(true, Some(""), []);
    var p3 := Parser(true, Some(a), []);
    assert Feed(Initial, [Container(), Item("li")] + t3) == Feed(p2, t3) by {
      OpenItem("li", t3);
    }
    assert Feed(p2, t3) == Feed(p3, t2) by {
      assert "" + a == a;
      FeedCons(p2, Data(a), t2);
    }
    assert Feed(p3, t2) == Feed(p3, t1) by {
      PlainStartStep(p3, t);
      FeedCons(p3, StartTag(t, []), t1);
    }
    assert Feed(p3, t1) == Parser(true, Some(a + b), []) by {
      assert t1 == [Data(b)] + [];
      FeedCons(p3, Data(b), []);
    }
    assert [Container(), Item("li")] + t3 == [Container(), Item("li"), Data(a), StartTag(t, []), Data(b)];
  }

  /** Text split by inline markup inside an item is concatenated before it is
      stripped: `<div id="navigation"><li class="nav_items">a<t>b</t>c</li></div>`
      yields the one label `strip(a + b + c)`, or nothing at all (and so an
      error) when that text is all whitespace. The inline tag may itself be a
      `div`: its end tag then closes the container in the middle of the item,
      yet the open label still collects `c` and is finished by `li`. With
      `a = "  Down"`, `t = "em"`, `b = "loads"` and `c = "  "` the label is
      `Downloads`. A corollary of FeedFinishesLabel. */
  lemma NestedMarkupIsFlattened(a: string, t: string, b: string, c: string)
    requires !IsLabelTag(t)
    ensures LoadNavigationLabels([Container(), Item("li"), Data(a), StartTag(t, []), Data(b),
                                  EndTag(t), Data(c), EndTag("li"), EndTag("div")])
            == if AllSpace(a + b + c) then Failure(NavigationNotFound) else Success([Strip(a + b + c)])
  {
    NestedMarkupLabels(a, t, b, c);
  }

  /** NestedMarkupIsFlattened for the collected labels. */
  lemma NestedMarkupLabels(a: string, t: string, b: string, c: string)
    requires !IsLabelTag(t)
    ensures Feed(Initial, [Container(), Item("li"), Data(a), StartTag(t, []), Data(b),
                           EndTag(t), Data(c), EndTag("li"), EndTag("div")]).labels
            == if AllSpace(a + b + c) then [] else [Strip(a + b + c)]
  {
    var item := [Data(a), StartTag(t, []), Data(b), EndTag(t), Data(c), EndTag("li")];
    var found := if AllSpace(a + b + c) then [] else [Strip(a + b + c)];
    var p2 := Parser(true, Some(""), []);
    var q := Feed(p2, item);
    assert Feed(Initial, [Container(), Item("li")] + (item + [EndTag("div")])).labels == found by {
      OpenItem("li", item + [EndTag("div")]);
      FeedConcat(p2, item, [EndTag("div")]);
      NestedMarkupItem(a, t, b, c);
      assert [EndTag("div")] == [EndTag("div")] + [];
      FeedCons(q, EndTag("div"), []);
    }
    NestedMarkupShape(a, t, b, c);
  }

  /** The item's part of NestedMarkupIsFlattened: from the open empty label
      to the `li` end tag. */
  lemma NestedMarkupItem(a: string, t: string, b: string, c: string)
    requires !IsLabelTag(t)
    ensures var q := Feed(Parser(true, Some(""), []), [Data(a), StartTag(t, []), Data(b), EndTag(t), Data(c), EndTag("li")]);
            q.currentLabel.None? && q.labels == if AllSpace(a + b + c) then [] else [Strip(a + b + c)]
  {
    var middle := [Data(a), StartTag(t, []), Data(b), EndTag(t), Data(c)];
    var p2 := Parser(true, Some(""), []);
    assert forall i :: 0 <= i < |middle| ==> KeepsLabelOpen(middle[i]) by {
      assert Get(ToDict([]), "class") == None;
    }
    NestedMarkupText(a, t, b, c);
    FeedFinishesLabel(p2, middle, "li");
    assert "" + (a + b + c) == a + b + c;
    assert middle + [EndTag("li")] == [Data(a), StartTag(t, []), Data(b), EndTag(t), Data(c), EndTag("li")];
  }

  lemma NestedMarkupText(a: string, t: string, b: string, c: string)
    ensures Texts([Data(a), StartTag(t, []), Data(b), EndTag(t), Data(c)]) == a + b + c
  {
    var m4 := [Data(c)];
    var m3 := [EndTag(t)] + m4;
    var m2 := [Data(b)] + m3;
    var m1 := [StartTag(t, [])] + m2;
    assert [Data(a), StartTag(t, []), Data(b), EndTag(t), Data(c)] == [Data(a)] + m1;
    assert m4 == [Data(c)] + [];
    TextsCons(Data(c), []);
    assert Texts(m4) == c;
    TextsCons(EndTag(t), m4);
    assert Texts(m3) == c;
    TextsCons(Data(b), m3);
    assert Texts(m2) == b + c;
    TextsCons(StartTag(t, []), m2);
    assert Texts(m1) == b + c;
    TextsCons(Data(a), m1);
    assert a + (b + c) == a + b + c;
  }

  /** The event stream of NestedMarkupIsFlattened, cut into its parts. */
  lemma NestedMarkupShape(a: string, t: string, b: string, c: string)
    ensures [Container(), Item("li")] + ([Data(a), StartTag(t, []), Data(b), EndTag(t), Data(c), EndTag("li")] + [EndTag("div")])
         == [Container(), Item("li"), Data(a), StartTag(t, []), Data(b), EndTag(t), Data(c), EndTag("li"), EndTag("div")]
  {
  }

  /** The concrete case of NestedMarkupIsFlattened:
      `<div id="navigation"><li class="nav_items">  Down<em>loads</em>  </li></div>`
      yields the one label `Downloads`. */
  lemma DownloadsExample()
    ensures LoadNavigationLabels([Container(), Item("li"), Data("  Down"), StartTag("em", []), Data("loads"),
                                  EndTag("em"), Data("  "), EndTag("li"), EndTag("div")])
            == Success(["Downloads"])
  {
    NestedMarkupIsFlattened("  Down", "em", "loads", "  ");
    DownloadsStrips();
  }

  lemma DownloadsStrips()
    ensures !AllSpace("  Down" + "loads" + "  ") && Strip("  Down" + "loads" + "  ") == "Downloads"
  {
    var s := "  Down" + "loads" + "  ";
    assert s == "  " + "Downloads" + "  " by {
      assert |s| == 13;
      forall k | 0 <= k < 13 ensures s[k] == ("  " + "Downloads" + "  ")[k] {}
    }
    StripUnique(s, "  ", "Downloads", "  ");
  }

  /** A label end tag finishing the first label of a parser. */
  lemma FirstLabelStep(p: Parser, t: string)
    requires IsLabelTag(t) && p.currentLabel.Some? && p.labels == []
    ensures Step(p, EndTag(t)) == p.(currentLabel := None,
                                     labels := if AllSpace(p.currentLabel.value) then [] else [Strip(p.currentLabel.value)])
  {
    var added := if AllSpace(p.currentLabel.value) then [] else [Strip(p.currentLabel.value)];
    assert [] + added == added;
  }

  /** The closing half of InnerLabelTagEndsLabel: the inner end tag finishes
      the label `a + b`, and everything after it leaves the labels alone. */
  lemma InnerLabelTagClosing(ab: string, t: string, c: string)
    requires IsLabelTag(t)
    ensures Feed(Parser(true, Some(ab), []), [EndTag(t), Data(c), EndTag("li"), EndTag("div")])
            == Parser(false, None, if AllSpace(ab) then [] else [Strip(ab)])
  {
    FirstLabelStep(Parser(true, Some(ab), []), t);
    ClosedThenIdle(Parser(true, Some(ab), []), EndTag(t), c);
  }

  /** An event that leaves no label open, followed by text, an `li` end tag
      and a `div` end tag: only the container flag changes after the event. */
  lemma ClosedThenIdle(p: Parser, e: Event, c: string)
    requires Step(p, e).currentLabel.None?
    ensures Feed(p, [e, Data(c), EndTag("li"), EndTag("div")]) == Step(p, e).(inNavigation := false)
  {
    var tail := [Data(c), EndTag("li"), EndTag("div")];
    FeedCons(p, e, tail);
    IdleTail(Step(p, e), c);
    assert [e] + tail == [e, Data(c), EndTag("li"), EndTag("div")];
  }

  /** With no label open, text and an `li` end tag change nothing and the
      `div` end tag only leaves the container. */
  lemma IdleTail(p: Parser, c: string)
    requires p.currentLabel.None?
    ensures Feed(p, [Data(c), EndTag("li"), EndTag("div")]) == p.(inNavigation := false)
  {
    var t0 := [EndTag("div")];
    var t1 := [EndTag("li")] + t0;
    assert Feed(p, [Data(c)] + t1) == Feed(p, t1) by {
      FeedCons(p, Data(c), t1);
    }
    assert Feed(p, t1) == Feed(p, t0) by {
      assert Step(p, EndTag("li")) == p;
      FeedCons(p, EndTag("li"), t0);
    }
    assert [Data(c)] + t1 == [Data(c), EndTag("li"), EndTag("div")];
  }

  /** The end tag of ANY `p`, `li` or `span` finishes the label, not only the
      end tag of the `nav_items` element: in
      `<div id="navigation"><li class="nav_items">a<t>b</t>c</li></div>` with
      `t` one of those tags, the label is `strip(a + b)` and `c` is dropped, as
      no label is open when it arrives. */
  lemma InnerLabelTagEndsLabel(a: string, t: string, b: string, c: string)
    requires IsLabelTag(t)
    ensures LoadNavigationLabels([Container(), Item("li"), Data(a), StartTag(t, []), Data(b),
                                  EndTag(t), Data(c), EndTag("li"), EndTag("div")])
            == if AllSpace(a + b) then Failure(NavigationNotFound) else Success([Strip(a + b)])
  {
    var opening := [Container(), Item("li"), Data(a), StartTag(t, []), Data(b)];
    var closing := [EndTag(t), Data(c), EndTag("li"), EndTag("div")];
    assert Feed(Initial, opening + closing) == Feed(Parser(true, Some(a + b), []), closing) by {
      assert t != "div";
      FeedConcat(Initial, opening, closing);
      NestedMarkupOpening(a, t, b);
    }
    InnerLabelTagClosing(a + b, t, c);
    assert opening + closing == [Container(), Item("li"), Data(a), StartTag(t, []), Data(b),
                                 EndTag(t), Data(c), EndTag("li"), EndTag("div")];
  }

  /** A `div` nested in the container closes it: in
      `<div id="navigation"><div></div><tag class="nav_items">text</tag></div>`
      the item comes after the close and is never collected, so loading fails
      whatever the item's tag and text. */
  lemma NestedDivClosesContainer(tag: string, text: string)
    ensures LoadNavigationLabels([Container(), StartTag("div", []), EndTag("div"), Item(tag),
                                  Data(text), EndTag(tag), EndTag("div")])
            == Failure(NavigationNotFound)
  {
    NestedDivFeed(tag, text);
  }

  /** NestedDivClosesContainer for the parser state: nothing is collected. */
  lemma NestedDivFeed(tag: string, text: string)
    ensures Feed(Initial, [Container(), StartTag("div", []), EndTag("div"), Item(tag),
                           Data(text), EndTag(tag), EndTag("div")]) == Initial
  {
    var rest := [Item(tag), Data(text), EndTag(tag), EndTag("div")];
    var t1 := [EndTag("div")] + rest;
    var t2 := [StartTag("div", [])] + t1;
    var p1 := Parser(true, None, []);
    assert Feed(Initial, [Container()] + t2) == Feed(p1, t2) by {
      ContainerStep(Initial);
      FeedCons(Initial, Container(), t2);
    }
    assert Feed(p1, t2) == Feed(p1, t1) by {
      assert Get(ToDict([]), "id") == None && Get(ToDict([]), "class") == None;
      assert Step(p1, StartTag("div", [])) == p1;
      FeedCons(p1, StartTag("div", []), t1);
    }
    assert Feed(p1, t1) == Feed(Initial, rest) by {
      FeedCons(p1, EndTag("div"), rest);
    }
    assert Feed(Initial, rest) == Initial by {
      assert !HasContainer(rest) by {
        forall i | 0 <= i < |rest| ensures !(rest[i].StartTag? && OpensContainer(rest[i].tag, rest[i].attrs)) {}
      }
      FeedWithoutContainer(Initial, rest);
    }
    assert [Container()] + t2 == [Container(), StartTag("div", []), EndTag("div"), Item(tag),
                                  Data(text), EndTag(tag), EndTag("div")];
  }

  /** The container's `div` end tag closes it even while a label is open, and
      the open label is still finished by a later `p` end tag outside the
      container: `<div id="navigation"><tag class="nav_items">text</div></p>`
      yields `text` when `text` is already stripped and non-empty. */
  lemma LabelOutlivesContainer(tag: string, text: string)
    requires CleanLabel(text)
    ensures Feed(Initial, [Container(), Item(tag), Data(text), EndTag("div"), EndTag("p")])
            == Parser(false, None, [text])
  {
    var rest := [Data(text), EndTag("div"), EndTag("p")];
    OpenItem(tag, rest);
    LabelAfterLeaving(text);
    assert [Container(), Item(tag)] + rest == [Container(), Item(tag), Data(text), EndTag("div"), EndTag("p")];
  }

  /** The part of LabelOutlivesContainer after the item's start tag. */
  lemma LabelAfterLeaving(text: string)
    requires CleanLabel(text)
    ensures Feed(Parser(true, Some(""), []), [Data(text), EndTag("div"), EndTag("p")])
            == Parser(false, None, [text])
  {
    var t0 := [EndTag("p")];
    var t1 := [EndTag("div")] + t0;
    var p3 := Parser(true, Some(text), []);
    var p4 := Parser(false, Some(text), []);
    assert Feed(Parser(true, Some(""), []), [Data(text)] + t1) == Feed(p3, t1) by {
      assert "" + text == text;
      FeedCons(Parser(true, Some(""), []), Data(text), t1);
    }
    assert Feed(p3, t1) == Feed(p4, t0) by {
      FeedCons(p3, EndTag("div"), t0);
    }
    assert Feed(p4, t0) == Parser(false, None, [text]) by {
      FirstLabelStep(p4, "p");
      FeedCons(p4, EndTag("p"), []);
      assert t0 == [EndTag("p")] + [];
    }
    assert [Data(text)] + t1 == [Data(text), EndTag("div"), EndTag("p")];
  }
}
