/** The common path prefix of uploaded object keys
    (scripts/build_strategy_readiness.py: common_prefix). */
module KeyPrefix {

  /** Python's `text.split("/")`: at least one component, none with a slash. */
  function Split(text: string): (r: seq<string>)
    ensures r != []
    ensures forall i :: 0 <= i < |r| ==> '/' !in r[i]
  {
    if text == "" then [""]
    else
      var n := |text| - 1;
      var front := Split(text[..n]);
      if text[n] == '/' then front + [""]
      else front[..|front| - 1] + [front[|front| - 1] + [text[n]]]
  }

  /** Python's `"/".join(parts)`. */
  function Join(parts: seq<string>): string {
    if parts == [] then ""
    else if |parts| == 1 then parts[0]
    else Join(parts[..|parts| - 1]) + "/" + parts[|parts| - 1]
  }

  lemma {:induction false} JoinInvertsSplit(text: string)
    ensures Join(Split(text)) == text
    decreases |text|
  {
    if text != "" {
      var n := |text| - 1;
      var front := Split(text[..n]);
      JoinInvertsSplit(text[..n]);
      assert text == text[..n] + [text[n]];
      if text[n] == '/' {
        assert (front + [""])[..|front|] == front;
        assert Join(front + [""]) == Join(front) + "/" + "";
      } else {
        var m := |front| - 1;
        var grown := front[..m] + [front[m] + [text[n]]];
        assert grown[..m] == front[..m];
      }
    }
  }

  /** The components after appending to the last one. */
  function Grow(parts: seq<string>, more: string): seq<string>
    requires parts != []
  {
    parts[..|parts| - 1] + [parts[|parts| - 1] + more]
  }

  lemma {:induction false} GrowTwice(parts: seq<string>, more: string, c: char)
    requires parts != []
    ensures Grow(Grow(parts, more), [c]) == Grow(parts, more + [c])
  {
    var n := |parts| - 1;
    assert Grow(parts, more)[..n] == parts[..n];
    assert (parts[n] + more) + [c] == parts[n] + (more + [c]);
  }

  lemma {:induction false} SplitChar(text: string, c: char)
    ensures Split(text + [c]) == if c == '/' then Split(text) + [""] else Grow(Split(text), [c])
  {
    assert (text + [c])[..|text|] == text;
  }

  lemma {:induction false} AppendStep(text: string, part: string, c: char)
    requires c != '/' && Split(text + part) == Grow(Split(text), part)
    ensures Split(text + (part + [c])) == Grow(Split(text), part + [c])
  {
    SplitChar(text + part, c);
    GrowTwice(Split(text), part, c);
    assert text + (part + [c]) == (text + part) + [c];
  }

  lemma {:induction false} SplitAppend(text: string, part: string)
    requires '/' !in part
    ensures Split(text + part) == Grow(Split(text), part)
    decreases |part|
  {
    if part == "" {
      var s := Split(text);
      assert text + part == text;
      assert s[|s| - 1] + part == s[|s| - 1];
    } else {
      var n := |part| - 1;
      SplitAppend(text, part[..n]);
      AppendStep(text, part[..n], part[n]);
      assert part == part[..n] + [part[n]];
    }
  }

  lemma {:induction false} JoinStep(parts: seq<string>, part: string)
    requires parts != []
    ensures Join(parts + [part]) == Join(parts) + "/" + part
  {
    assert (parts + [part])[..|parts|] == parts;
  }

  /** Splitting a joined list of slash-free components gives the list back. */
  lemma {:induction false} SplitInvertsJoin(parts: seq<string>)
    requires parts != [] && forall i :: 0 <= i < |parts| ==> '/' !in parts[i]
    ensures Split(Join(parts)) == parts
    decreases |parts|
  {
    var n := |parts| - 1;
    var front, last := parts[..n], parts[n];
    assert parts == front + [last];
    if n == 0 {
      SplitAppend("", last);
      assert "" + last == last && Split("") == [""];
    } else {
      SplitInvertsJoin(front);
      JoinStep(front, last);
      SplitChar(Join(front), '/');
      SplitAppend(Join(front) + "/", last);
      assert Grow(front + [""], last) == front + [last] by {
        assert "" + last == last;
      }
    }
  }

  /** `p` starts the component list of every key. */
  predicate CommonPrefixOf(p: seq<string>, keys: seq<string>) {
    forall k :: 0 <= k < |keys| ==> p <= Split(keys[k])
  }

  /** One step of the zip: the `i`-th component of every key, if every key has one
      and they all agree. */
  method AgreedComponent(split: seq<seq<string>>, i: nat) returns (agreed: bool)
    requires split != []
    ensures agreed <==> forall k :: 0 <= k < |split| ==> i < |split[k]| && i < |split[0]| && split[k][i] == split[0][i]
  {
    if i >= |split[0]| {
      return false;
    }
    for k := 0 to |split|
      invariant forall j :: 0 <= j < k ==> i < |split[j]| && split[j][i] == split[0][i]
    {
      if i >= |split[k]| || split[k][i] != split[0][i] {
        return false;
      }
    }
    agreed := true;
  }

  /** The joined greatest common component prefix. */
  method CommonPrefix(keys: seq<string>) returns (prefix: string)
    ensures keys == [] ==> prefix == ""
    ensures keys != [] ==>
              exists parts: seq<string> ::
                && prefix == Join(parts)
                && CommonPrefixOf(parts, keys)
                && (forall q :: CommonPrefixOf(q, keys) ==> q <= parts)
                && (parts != [] ==> Split(prefix) == parts)
  {
    if keys == [] {
      return "";
    }
    var split := seq(|keys|, k requires 0 <= k < |keys| => Split(keys[k]));
    var parts: seq<string> := [];
    var more := true;
    while more
      invariant CommonPrefixOf(parts, keys)
      invariant !more ==> forall q :: CommonPrefixOf(q, keys) ==> q <= parts
      decreases more, |split[0]| - |parts|
    {
      var i := |parts|;
      assert parts <= Split(keys[0]);
      var agreed := AgreedComponent(split, i);
      if agreed {
        var longer := parts + [split[0][i]];
        forall k | 0 <= k < |keys| ensures longer <= Split(keys[k]) {
          assert parts <= Split(keys[k]) && split[k] == Split(keys[k]);
          assert split[k][i] == split[0][i];
        }
        parts := longer;
      } else {
        more := false;
        forall q | CommonPrefixOf(q, keys) ensures q <= parts {
          PrefixStops(q, parts, keys, split);
        }
      }
    }
    prefix := Join(parts);
    if parts != [] {
      assert parts <= Split(keys[0]);
      SplitInvertsJoin(parts);
    }
  }

  /** No common prefix goes past the first position where the keys disagree. */
  lemma {:induction false} PrefixStops(q: seq<string>, parts: seq<string>, keys: seq<string>, split: seq<seq<string>>)
    requires keys != [] && |split| == |keys| && forall k :: 0 <= k < |keys| ==> split[k] == Split(keys[k])
    requires CommonPrefixOf(q, keys) && CommonPrefixOf(parts, keys)
    requires exists k :: 0 <= k < |split| &&
               !(|parts| < |split[k]| && |parts| < |split[0]| && split[k][|parts|] == split[0][|parts|])
    ensures q <= parts
  {
    var k :| 0 <= k < |split| &&
             !(|parts| < |split[k]| && |parts| < |split[0]| && split[k][|parts|] == split[0][|parts|]);
    assert q <= Split(keys[0]) && parts <= Split(keys[0]);
    assert q <= Split(keys[k]);
  }
}
