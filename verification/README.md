# Navigation label extractor

This project models the fallback navigation-label extractor of the
`AboutPython` test suite. The extractor is the `_NavigationHTMLParser` class
together with the no-labels check in `load_navigation_labels`. It reads the
events that Python's `html.parser.HTMLParser` tokenizer produces from a page:
start tags with their attributes, end tags, and text. A start tag `div`
whose `id` is `navigation` marks the parser as inside the container. Inside
it, a start tag whose `class` is exactly `nav_items` opens an empty label
buffer, discarding any text already buffered. Text is appended to an open
buffer. The next `p`, `li` or `span` end tag closes the buffer, whichever
element that tag belongs to. The buffered text is stripped of surrounding
whitespace and kept when non-empty. The first `div` end tag of any depth
marks the parser as outside the container again. If no label is found,
loading fails.

The model is functional:

- `wrappers.dfy`: `Option` (Python's `Optional`) and `Result` (return or raise).
- `text.dfy`: Python's `str.strip()` over Python's own whitespace set.
- `attributes.dfy`: the attribute list, `dict(attrs)`, `dict.get`, and a
  reference definition saying that the last pair with a given name wins.
- `navigation_parser.dfy`: the event datatype, the parser's three fields as an
  immutable record, and one pure function per handler. `Step` dispatches an
  event to its handler.
- `navigation_labels.dfy`: `Feed`, the fold of `Step` over an event stream;
  the loader with its `NavigationNotFound` error; `Texts`, the text of a
  stream in order; and lemmas over the fold.
- `navigation_examples.dfy`: small documents that pin down edge cases of the
  source.

One behaviour of the code is easy to misread. It is easy to assume that a
`div` end tag closes the container only when no label is open. In the code (tests/test_navigation.py:26 and 31-32), a `div`
end tag always fails the first test, because `div` is not a label tag. So it
always reaches the `elif` and clears the container flag, even while a label
is open. The open label is kept: a later `p`, `li` or `span` end tag still
finishes it, even outside the container. The model follows the code.
`HandleEndTag` and `LabelOutlivesContainer` state this behaviour.

## Model

| member | source | states |
|---|---|---|
| Text.Strip | tests/test_navigation.py:27 | The stripped text is empty exactly when the input is all whitespace. It has no whitespace at either end. It is the input with whitespace-only padding removed from both sides. |
| Text.StripUnique | tests/test_navigation.py:27 | Any trimmed text padded by whitespace strips back to exactly that text, so the contract of `Strip` determines it. |
| Text.StripIdempotent | tests/test_navigation.py:27-29 | Stripping an already stripped label changes nothing. |
| Attributes.ToDict | tests/test_navigation.py:19 | `dict(attrs)` has a key exactly for each attribute name that occurs in the list. |
| Attributes.LastValue | tests/test_navigation.py:19 | Reference reading of duplicate attributes: the value of the last pair with the name, or absent when no pair has it. |
| Attributes.InsertLastWins | tests/test_navigation.py:19 | Building the dictionary pair by pair, left to right, leaves each name with the value of its last pair and keeps earlier entries otherwise. |
| Attributes.DictGetIsLastValue | tests/test_navigation.py:19-22 | `Get(ToDict(attrs), name)`, which is `dict(attrs).get(name)` as used at lines 20 and 22, is the last pair's value. It is `None` when the name is missing or that pair has no value. |
| NavigationParser.HandleStartTag | tests/test_navigation.py:18-23 | The container `div` raises the flag and never opens a label, even when it is also marked `nav_items`. A `nav_items` tag inside the container opens an empty label and discards any buffered text. Every other start tag changes nothing. Labels never change. |
| NavigationParser.HandleEndTag | tests/test_navigation.py:25-32 | A `p`/`li`/`span` end tag with an open label closes it and appends its stripped text when non-empty. The container flag is unchanged. A `div` end tag clears the flag and nothing else. Any other end tag changes nothing. |
| NavigationParser.HandleData | tests/test_navigation.py:34-36 | Text is appended verbatim to an open label and ignored when none is open. The flag and the labels never change. |
| NavigationParser.Step | tests/test_navigation.py:18-36 | Per event: the old labels are a prefix of the new ones and at most one is added. Only a label end tag with an open buffer adds one. Stripped, non-empty labels stay so. Labels plus open buffers grow only when a label is opened. Only the container tag raises the flag. |
| NavigationLabels.Feed | tests/test_navigation.py:52-53 | Over a whole stream, labels are append-only, at most one is added per event, and every label is stripped and non-empty. |
| NavigationLabels.FeedConcat | tests/test_navigation.py:53 | Feeding a stream in two parts gives the same state as feeding it whole. |
| NavigationLabels.FeedCollects | tests/test_navigation.py:18-36 | While a label is open, events that cannot close or reopen it leave the labels alone. Such events are text, end tags other than `p`/`li`/`span`, and start tags that are the container or lack `nav_items`. The open buffer becomes the old buffer followed by all the stream's text (`Texts`), in order. |
| NavigationLabels.FeedFinishesLabel | tests/test_navigation.py:26-36 | Such a stream followed by a `p`/`li`/`span` end tag closes the label. It adds exactly one label, `strip(buffer + Texts(events))`, or none when that text is all whitespace. |
| NavigationLabels.FeedLabelBound | tests/test_navigation.py:22-30 | Labels found plus a label still open never exceed the labels opened by `nav_items` start tags inside the container. |
| NavigationLabels.Run | tests/test_navigation.py:12-16 | A freshly constructed parser (`Initial`: outside the container, no label open, no labels) is fed the whole stream, as at lines 52-53. Every label it collects is stripped and non-empty. Labels plus a label still open number at most the `nav_items` start tags it sees inside the container. |
| NavigationLabels.LoadNavigationLabels | tests/test_navigation.py:52-58 | Loading fails exactly when no label was collected. Otherwise it returns the collected labels: non-empty, each stripped, and no more than the `nav_items` tags seen inside the container. |
| NavigationLabels.FeedWithoutContainer | tests/test_navigation.py:20-23 | Outside the container with no label open, a stream without a container tag changes nothing. |
| NavigationLabels.FeedWithoutItems | tests/test_navigation.py:22-23 | With no label open, a stream with no `nav_items` tag (other than a container tag) never opens one and adds no label. |
| NavigationLabels.MissingContainerFails | tests/test_navigation.py:55-56 | A document without a `div` whose `id` is `navigation` fails to load. |
| NavigationLabels.MissingItemsFails | tests/test_navigation.py:55-56 | A document with no `nav_items` element fails to load. |
| NavigationExamples.NestedMarkupIsFlattened | tests/test_navigation.py:26-36 | For any texts a, b and c and any tag `t` other than `p`, `li` and `span` (including `div`), an item `a<t>b</t>c` yields exactly one label, `strip(a + b + c)`. When that text is all whitespace it yields none and loading fails. So `  Down<em>loads</em>  ` yields `Downloads`. |
| NavigationExamples.DownloadsExample | tests/test_navigation.py:26-36 | The concrete item `  Down<em>loads</em>  ` inside the container loads as exactly `["Downloads"]`. |
| NavigationExamples.InnerLabelTagEndsLabel | tests/test_navigation.py:26-36 | Any `p`, `li` or `span` end tag closes the label, not only the `nav_items` element's own one. In `a<t>b</t>c` with `t` one of those tags, the label is `strip(a + b)`, `c` is dropped, and loading fails when `a + b` is all whitespace. |
| NavigationExamples.NestedDivClosesContainer | tests/test_navigation.py:31-32 | The end tag of a `div` nested inside the container closes the container, so a later item, whatever its tag and text, is never collected and loading fails. |
| NavigationExamples.LabelOutlivesContainer | tests/test_navigation.py:26-32 | The container's end tag closes it while a label is open, and a later `p` end tag outside the container still finishes that label. This holds whatever the item's tag. |

## Left out

- The BeautifulSoup branch and the import fallback (tests/test_navigation.py:5-8, 44-50). Their behaviour depends on a foreign library's `find` and `get_text`. Unlike the modelled branch, they keep empty labels and do not fail on an empty list.
- Reading `AboutPython.html` and resolving its path (tests/test_navigation.py:40-42). This is file I/O. The model takes the tokenizer's event stream as its input.
- The `HTMLParser` tokenizer (tests/test_navigation.py:1, 53). It is a foreign call, so its work is assumed done: tag and attribute names are lower-cased, character references are resolved, a self-closing tag becomes a start event followed by an end event, and comments and declarations go to handlers that do nothing. Text that the tokenizer holds back at the end of `feed` without `close()` is not modelled.
- The fixture test comparing against six fixed labels (tests/test_navigation.py:61-73). It depends on the contents of `AboutPython.html`, which is not part of this model.
- Text.Strip: strips the characters Python's `str.isspace` accepts, listed explicitly. It does not model other Unicode behaviour of Python strings.
