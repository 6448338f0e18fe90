/**
  The parts of Python's runtime that the exporter's logic depends on: the
  exceptions that end a call, `str` attributes that may hold None, and the
  `str` operations the exporter uses to encode lists, truth values and keys:
  `p in s`, `', '.join(xs)`, `s.split(', ')`, `s.replace(p, '')`, `str(b)` and
  `distutils.util.strtobool`.
*/
module PyCore {
  import opened Wrappers

  /** The exception a Python call stops with. */
  datatype Fault =
    | AttributeError     // an attribute or method looked up on None
    | TypeError          // `str + None`, `', '.join` over a None, a None index
    | ValueError         // strtobool of a word it does not know
    | IndexError         // list.pop past the end
    | UnboundLocalError  // a local read on a branch that never assigned it
    | ParseError         // ElementTree.fromstring of text that is not XML

  /** A `str` attribute that may hold None. */
  type Text = Option<string>

  /** Python truthiness of a str-or-None value. */
  predicate Truthy(t: Text) {
    t.Some? && t.value != ""
  }

  /** `a + t`, which raises TypeError when `t` is None. */
  function Concat(a: string, t: Text): (r: Result<string, Fault>)
    ensures r.Ok? <==> t.Some?
    ensures r.Ok? ==> r.value == a + t.value
  {
    if t.Some? then Ok(a + t.value) else Err(TypeError)
  }

  /** `str(t)`: None is printed as the word None. */
  function Str(t: Text): string {
    if t.Some? then t.value else "None"
  }

  // ---------------------------------------------------------------------
  // Substrings

  predicate StartsWith(s: string, p: string) {
    |p| <= |s| && s[..|p|] == p
  }

  /** `p in s` on strings: `p` occurs somewhere in `s`. */
  predicate Contains(s: string, p: string)
    decreases |s|
  {
    StartsWith(s, p) || (|s| > 0 && Contains(s[1..], p))
  }

  lemma {:induction false} ContainsKeepsChars(s: string, p: string, c: char)
    requires Contains(s, p) && c in p
    ensures c in s
    decreases |s|
  {
    if StartsWith(s, p) {
      assert c in s[..|p|];
    } else {
      ContainsKeepsChars(s[1..], p, c);
    }
  }

  lemma {:induction false} LongerNotContained(s: string, p: string)
    requires |s| < |p|
    ensures !Contains(s, p)
    decreases |s|
  {
    if |s| > 0 {
      LongerNotContained(s[1..], p);
    }
  }

  /** Occurrences of `p` in a suffix are occurrences in the whole string. */
  lemma {:induction false} ContainsSuffix(q: string, s: string, p: string)
    requires Contains(s, p)
    ensures Contains(q + s, p)
    decreases |q|
  {
    if q == [] {
      assert q + s == s;
    } else {
      assert (q + s)[1..] == q[1..] + s;
      ContainsSuffix(q[1..], s, p);
    }
  }

  /** A string followed by `p` contains `p`. */
  lemma ContainsWhole(q: string, p: string)
    ensures Contains(q + p, p)
  {
    assert StartsWith(p, p);
    ContainsSuffix(q, p, p);
  }

  /** `p in a + b` when `p` is in `a`. */
  lemma {:induction false} ContainsPrefixPart(a: string, b: string, p: string)
    requires Contains(a, p)
    ensures Contains(a + b, p)
    decreases |a|
  {
    if StartsWith(a, p) {
      assert (a + b)[..|p|] == a[..|p|];
    } else {
      assert (a + b)[1..] == a[1..] + b;
      ContainsPrefixPart(a[1..], b, p);
    }
  }

  // ---------------------------------------------------------------------
  // The list encoding: ', '.join and split(', ')

  /** The separator the exporter writes between list items. */
  const Sep := ", "

  /** `', '.join(xs)`. */
  function Join(xs: seq<string>): string {
    if |xs| == 0 then ""
    else if |xs| == 1 then xs[0]
    else xs[0] + Sep + Join(xs[1..])
  }

  /**
    `s.split(', ')`: cuts `s` at every occurrence of the separator, scanning
    from the left. The result is never empty (`''.split(', ')` is `['']`), its
    first piece is a prefix of `s`, and no piece contains the separator.
  */
  function Split(s: string): (r: seq<string>)
    ensures |r| > 0 && StartsWith(s, r[0])
    ensures forall x | x in r :: !Contains(x, Sep)
    decreases |s|
  {
    if |s| >= 2 && s[0] == ',' && s[1] == ' ' then
      [""] + Split(s[2..])
    else if s == "" then
      [""]
    else
      var rest := Split(s[1..]);
      assert !StartsWith([s[0]] + rest[0], Sep) by {
        if |rest[0]| > 0 {
          assert s[1..][..|rest[0]|] == rest[0];
          assert ([s[0]] + rest[0])[..2] == [s[0], s[1]];
        }
      }
      assert ([s[0]] + rest[0])[1..] == rest[0];
      [[s[0]] + rest[0]] + rest[1..]
  }

  /** Neither a separator-free piece nor the empty string. */
  predicate SafeItem(x: string) {
    !Contains(x, Sep)
  }

  lemma {:induction false} SplitSafe(x: string)
    requires SafeItem(x)
    ensures Split(x) == [x]
    decreases |x|
  {
    if x != "" {
      SplitSafe(x[1..]);
      assert [x[0]] + x[1..] == x;
    }
  }

  /** Splitting `x + ', ' + t` cuts exactly after `x` when `x` has no separator. */
  lemma {:induction false} SplitAfterSafe(x: string, t: string)
    requires SafeItem(x)
    ensures Split(x + Sep + t) == [x] + Split(t)
    decreases |x|
  {
    var s := x + Sep + t;
    if x == "" {
      assert s[2..] == t;
    } else {
      if |x| >= 2 {
        assert s[..2] == x[..2];
      } else {
        assert s[1] == ',';
      }
      assert s[1..] == x[1..] + Sep + t;
      SplitAfterSafe(x[1..], t);
      assert [x[0]] + x[1..] == x;
    }
  }

  /** Round trip of the list encoding: a non-empty list of separator-free items is restored. */
  lemma {:induction false} SplitJoin(xs: seq<string>)
    requires |xs| > 0
    requires forall x | x in xs :: SafeItem(x)
    ensures Split(Join(xs)) == xs
    decreases |xs|
  {
    if |xs| == 1 {
      SplitSafe(xs[0]);
    } else {
      SplitAfterSafe(xs[0], Join(xs[1..]));
      SplitJoin(xs[1..]);
    }
  }

  /** The other direction holds for every string: joining the pieces gives the text back. */
  lemma {:induction false} JoinSplit(s: string)
    ensures Join(Split(s)) == s
    decreases |s|
  {
    if |s| >= 2 && s[0] == ',' && s[1] == ' ' {
      JoinSplit(s[2..]);
      JoinSplitAtSep(s);
    } else if s != "" {
      JoinSplit(s[1..]);
      JoinSplitAtChar(s);
    }
  }

  /** The step of `JoinSplit` for a string that starts with the separator. */
  lemma JoinSplitAtSep(s: string)
    requires |s| >= 2 && s[0] == ',' && s[1] == ' '
    requires Join(Split(s[2..])) == s[2..]
    ensures Join(Split(s)) == s
  {
    var rest := Split(s[2..]);
    var xs := [""] + rest;
    assert Split(s) == xs;
    assert |rest| > 0 && xs[0] == "" && xs[1..] == rest;
    assert Join(xs) == "" + Sep + Join(rest);
    assert "" + Sep + s[2..] == s;
  }

  /** The step of `JoinSplit` for a string that starts with any other character. */
  lemma JoinSplitAtChar(s: string)
    requires s != "" && !(|s| >= 2 && s[0] == ',' && s[1] == ' ')
    requires Join(Split(s[1..])) == s[1..]
    ensures Join(Split(s)) == s
  {
    SplitAtChar(s);
    JoinStep(s, Split(s), Split(s[1..]));
  }

  /** The join half of `JoinSplitAtChar`, stated without `Split`. */
  lemma JoinStep(s: string, r: seq<string>, rest: seq<string>)
    requires s != "" && |rest| > 0
    requires r == [[s[0]] + rest[0]] + rest[1..]
    requires Join(rest) == s[1..]
    ensures Join(r) == s
  {
    JoinPrepend(s[0], rest);
    assert s == [s[0]] + s[1..];
  }

  /** Outside a separator, `Split` adds the first character to the first piece of the rest. */
  lemma SplitAtChar(s: string)
    requires s != "" && !(|s| >= 2 && s[0] == ',' && s[1] == ' ')
    ensures Split(s) == [[s[0]] + Split(s[1..])[0]] + Split(s[1..])[1..]
  {
  }

  /** Putting a character in front of the first piece puts it in front of the joined string. */
  lemma JoinPrepend(c: char, r: seq<string>)
    requires |r| > 0
    ensures Join([[c] + r[0]] + r[1..]) == [c] + Join(r)
  {
    var head := [c] + r[0];
    if |r| == 1 {
      assert [head] + r[1..] == [head];
    } else {
      var j := Join(r[1..]);
      assert Join([head] + r[1..]) == head + Sep + j by {
        JoinCons(head, r[1..]);
      }
      assert Join(r) == r[0] + Sep + j by {
        JoinCons(r[0], r[1..]);
        assert [r[0]] + r[1..] == r;
      }
      PrependAssoc(c, r[0], Sep);
      PrependAssoc(c, r[0] + Sep, j);
    }
  }

  lemma PrependAssoc(c: char, a: string, b: string)
    ensures [c] + a + b == [c] + (a + b)
  {
  }

  /** Joining a list of two or more pieces: its first piece, the separator, then the join of the rest. */
  lemma JoinCons(x: string, rest: seq<string>)
    requires |rest| > 0
    ensures Join([x] + rest) == x + Sep + Join(rest)
  {
    assert ([x] + rest)[1..] == rest;
  }

  /** Joining two non-empty lists puts one separator between their joins. */
  lemma {:induction false} JoinConcat(xs: seq<string>, ys: seq<string>)
    requires |xs| > 0 && |ys| > 0
    ensures Join(xs + ys) == Join(xs) + Sep + Join(ys)
    decreases |xs|
  {
    if |xs| == 1 {
      assert (xs + ys)[1..] == ys;
    } else {
      assert (xs + ys)[1..] == xs[1..] + ys;
      JoinConcat(xs[1..], ys);
    }
  }

  /** Only the empty text splits into the single empty piece. */
  lemma SplitNonEmpty(s: string)
    requires s != ""
    ensures Split(s) != [""]
  {
  }

  /** The list encoding is lossy when an item holds the separator. */
  lemma JoinedItemComesBackSplit()
    ensures Split(Join(["a, b"])) == ["a", "b"]
  {
    assert Join(["a, b"]) == "a" + Sep + "b";
    LongerNotContained("a", Sep);
    LongerNotContained("b", Sep);
    SplitAfterSafe("a", "b");
    SplitSafe("b");
  }

  /** `', '.join(xs)` over values that may be None: TypeError on a None. */
  function JoinTexts(xs: seq<Text>): (r: Result<string, Fault>)
    ensures r.Ok? <==> forall i | 0 <= i < |xs| :: xs[i].Some?
    ensures r.Ok? ==> r.value == Join(seq(|xs|, i requires 0 <= i < |xs| => xs[i].value))
    decreases |xs|
  {
    if |xs| == 0 then Ok("")
    else if xs[0].None? then Err(TypeError)
    else if |xs| == 1 then Ok(xs[0].value)
    else
      match JoinTexts(xs[1..])
      case Err(f) => Err(f)
      case Ok(rest) =>
        assert seq(|xs| - 1, i requires 0 <= i < |xs| - 1 => xs[1..][i].value)
            == seq(|xs|, i requires 0 <= i < |xs| => xs[i].value)[1..];
        Ok(xs[0].value + Sep + rest)
  }

  // ---------------------------------------------------------------------
  // Name recovery: key.replace(prefix, '')

  /** `s.replace(p, '')`: deletes the occurrences of `p` found scanning from the left. */
  function RemoveAll(s: string, p: string): string
    requires |p| > 0
    decreases |s|
  {
    if StartsWith(s, p) then RemoveAll(s[|p|..], p)
    else if s == [] then []
    else [s[0]] + RemoveAll(s[1..], p)
  }

  lemma {:induction false} RemoveAllAbsent(s: string, p: string)
    requires |p| > 0 && !Contains(s, p)
    ensures RemoveAll(s, p) == s
    decreases |s|
  {
    if s != [] {
      RemoveAllAbsent(s[1..], p);
    }
  }

  /** The name stored under `p + n` is recovered exactly when `n` does not itself contain `p`. */
  lemma RemoveAllKey(p: string, n: string)
    requires |p| > 0 && !Contains(n, p)
    ensures RemoveAll(p + n, p) == n
  {
    assert StartsWith(p + n, p) && (p + n)[|p|..] == n;
    RemoveAllAbsent(n, p);
  }

  // ---------------------------------------------------------------------
  // Truth values: str(bool) and strtobool

  /**
    A truth value as the exporter holds it: Python's `True`/`False`
    (`Literal`) or the int `1`/`0` that `strtobool` returns (`Numeric`).
    Both behave alike in every test the exporter makes; they print differently.
  */
  datatype Flag = Literal(truth: bool) | Numeric(truth: bool)

  /** `str(f)`. */
  function FlagText(f: Flag): (s: string)
    ensures s != ""
  {
    match f
    case Literal(b) => if b then "True" else "False"
    case Numeric(b) => if b then "1" else "0"
  }

  function LowerChar(c: char): char {
    if 'A' <= c <= 'Z' then (c as int + 32) as char else c
  }

  /** `s.lower()` on the characters that can spell a strtobool word. */
  function Lower(s: string): (r: string)
    ensures |r| == |s|
  {
    seq(|s|, i requires 0 <= i < |s| => LowerChar(s[i]))
  }

  const TrueWords: seq<string> := ["y", "yes", "t", "true", "on", "1"]
  const FalseWords: seq<string> := ["n", "no", "f", "false", "off", "0"]

  /** `strtobool(t)`: AttributeError on None, ValueError on an unknown word. */
  function StrToBool(t: Text): (r: Result<Flag, Fault>)
    ensures r.Ok? ==> r.value.Numeric?
    ensures t.None? ==> r == Err(AttributeError)
  {
    if t.None? then Err(AttributeError)
    else
      var v := Lower(t.value);
      if v in TrueWords then Ok(Numeric(true))
      else if v in FalseWords then Ok(Numeric(false))
      else Err(ValueError)
  }

  /** Writing a flag with str() and reading it with strtobool keeps its truth and makes it numeric. */
  lemma FlagRoundTrip(f: Flag)
    ensures StrToBool(Some(FlagText(f))) == Ok(Numeric(f.truth))
  {
    match f
    case Literal(b) =>
      if b {
        assert Lower("True") == "true";
      } else {
        assert Lower("False") == "false";
      }
    case Numeric(b) =>
      if b {
        assert Lower("1") == "1";
      } else {
        assert Lower("0") == "0";
      }
  }
}
