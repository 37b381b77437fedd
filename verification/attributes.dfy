/** Start-tag attributes as HTMLParser delivers them, a list of (name, value)
    pairs where a valueless attribute has value `None`, and the dictionary
    the parser builds from them with `dict(attrs)`. */
module Attributes {
  import opened Wrappers

  datatype Attr = Attr(name: string, value: Option<string>)

  /** `dict(attrs)`: pairs are inserted left to right, so a later pair with the
      same name overwrites an earlier one. */
  function ToDict(attrs: seq<Attr>): (d: map<string, Option<string>>)
    ensures forall k :: k in d <==> exists i :: 0 <= i < |attrs| && attrs[i].name == k
  {
    Insert(map[], attrs)
  }

  /** Inserts `attrs` into `acc` in order. */
  function Insert(acc: map<string, Option<string>>, attrs: seq<Attr>): (d: map<string, Option<string>>)
    ensures forall k :: k in d <==> k in acc || exists i :: 0 <= i < |attrs| && attrs[i].name == k
    decreases |attrs|
  {
    if attrs == [] then acc
    else
      var d := Insert(acc[attrs[0].name := attrs[0].value], attrs[1..]);
      assert forall i :: 0 < i < |attrs| ==> attrs[i] == attrs[1..][i - 1];
      d
  }

  /** The value of the LAST pair named `name`, or `None` when no pair has that
      name. This is the reference reading of "last duplicate wins". */
  function LastValue(attrs: seq<Attr>, name: string): (r: Option<Option<string>>)
    ensures r.None? <==> forall i :: 0 <= i < |attrs| ==> attrs[i].name != name
    ensures r.Some? ==> exists i :: IsLastPair(attrs, name, i, r.value)
  {
    if attrs == [] then None
    else if attrs[|attrs| - 1].name == name then
      assert IsLastPair(attrs, name, |attrs| - 1, attrs[|attrs| - 1].value);
      Some(attrs[|attrs| - 1].value)
    else
      var init := attrs[..|attrs| - 1];
      var r := LastValue(init, name);
      assert forall i :: 0 <= i < |init| ==> init[i] == attrs[i];
      LastPairKept(attrs, init, name, r);
      r
  }

  /** Pair `i` is named `name`, has value `v`, and no later pair has that name. */
  ghost predicate IsLastPair(attrs: seq<Attr>, name: string, i: int, v: Option<string>) {
    && 0 <= i < |attrs| && attrs[i].name == name && attrs[i].value == v
    && forall j :: i < j < |attrs| ==> attrs[j].name != name
  }

  /** The last pair named `name` in all but the final attribute stays the last
      one when the final attribute has another name. */
  lemma LastPairKept(attrs: seq<Attr>, init: seq<Attr>, name: string, r: Option<Option<string>>)
    requires attrs != [] && init == attrs[..|attrs| - 1] && attrs[|attrs| - 1].name != name
    requires r.Some? ==> exists i :: IsLastPair(init, name, i, r.value)
    ensures r.Some? ==> exists i :: IsLastPair(attrs, name, i, r.value)
  {
    if r.Some? {
      var v := r.value;
      var i :| IsLastPair(init, name, i, v);
      assert attrs[i] == init[i];
      forall j | i < j < |attrs| ensures attrs[j].name != name {
        if j < |init| { assert attrs[j] == init[j]; }
      }
      assert IsLastPair(attrs, name, i, v);
    }
  }

  /** `d.get(key)`: Python's `None` both when the key is missing and when the
      attribute had no value. */
  function Get(d: map<string, Option<string>>, key: string): Option<string> {
    if key in d then d[key] else None
  }

  /** Inserting the pairs one by one leaves, under every name, the value of the
      last pair with that name, and the accumulator's value otherwise. */
  lemma {:induction false} InsertLastWins(acc: map<string, Option<string>>, attrs: seq<Attr>, name: string)
    ensures name in Insert(acc, attrs) <==> name in acc || LastValue(attrs, name).Some?
    ensures LastValue(attrs, name).Some? ==> Insert(acc, attrs)[name] == LastValue(attrs, name).value
    ensures LastValue(attrs, name).None? && name in acc ==> Insert(acc, attrs)[name] == acc[name]
    decreases |attrs|
  {
    if attrs != [] {
      var acc' := acc[attrs[0].name := attrs[0].value];
      InsertLastWins(acc', attrs[1..], name);
      LastValueCons(attrs, name);
    }
  }

  /** Looking up from the back agrees with peeling off the first pair. */
  lemma {:induction false} LastValueCons(attrs: seq<Attr>, name: string)
    requires attrs != []
    ensures LastValue(attrs, name) ==
      (if LastValue(attrs[1..], name).Some? then LastValue(attrs[1..], name)
       else if attrs[0].name == name then Some(attrs[0].value)
       else None)
    decreases |attrs|
  {
    if |attrs| > 1 && attrs[|attrs| - 1].name != name {
      var init := attrs[..|attrs| - 1];
      LastValueCons(init, name);
      assert init[1..] == attrs[1..][..|attrs[1..]| - 1];
    }
  }

  /** `dict(attrs).get(name)` is the value of the last pair named `name`
      (`None` when there is no such pair or that pair had no value). */
  lemma DictGetIsLastValue(attrs: seq<Attr>, name: string)
    ensures Get(ToDict(attrs), name) ==
      (match LastValue(attrs, name) case Some(v) => v case None => None)
  {
    InsertLastWins(map[], attrs, name);
  }
}
