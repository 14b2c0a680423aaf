/** The few JavaScript value semantics the card's decisions depend on:
    undefined/null/string values, truthiness, template-string conversion,
    ASCII lower-casing for the "none" test, and String.prototype.split on
    a single separator character. */
module Js {

  datatype Option<+T> = None | Some(value: T)

  /** A value read from a configuration object or from an entity snapshot.
      `Undefined` is a missing property, `Null` an explicit null, `Str` a string. */
  datatype JsValue = Undefined | Null | Str(s: string)

  /** JavaScript truthiness of a string-valued property: only a non-empty string is truthy. */
  predicate Truthy(v: JsValue) {
    v.Str? && v.s != ""
  }

  /** Truthiness of a numeric property (`rows`, `columns`): missing or zero is falsy. */
  predicate TruthyInt(n: Option<int>) {
    n.Some? && n.value != 0
  }

  /** Conversion of a value to a string, as a template literal or a
      property-key lookup performs it. */
  function ToString(v: JsValue): (r: string)
    ensures v.Str? ==> r == v.s
    ensures v.Undefined? ==> r == "undefined"
    ensures v.Null? ==> r == "null"
  {
    match v
    case Undefined => "undefined"
    case Null => "null"
    case Str(s) => s
  }

  /** Number of iterations of `for (let i = 0; i < n; i++)`; comparing with
      undefined is false, so a missing bound runs no iteration. */
  function Extent(n: Option<int>): nat {
    if n.Some? && n.value > 0 then n.value else 0
  }

  function LowerChar(c: char): char {
    if 'A' <= c <= 'Z' then (c as int + 32) as char else c
  }

  /** `toLowerCase()` restricted to ASCII letters. */
  function Lower(s: string): (r: string)
    ensures |r| == |s|
  {
    seq(|s|, i requires 0 <= i < |s| => LowerChar(s[i]))
  }

  /** `s.toLowerCase() === "none"`. */
  predicate IsNone(s: string) {
    Lower(s) == "none"
  }

  /** The literal test: exactly the four letters n, o, n, e in either case. */
  lemma IsNoneLetters(s: string)
    ensures IsNone(s) <==> |s| == 4 && s[0] in "nN" && s[1] in "oO" && s[2] in "nN" && s[3] in "eE"
  {
    if IsNone(s) {
      assert Lower(s)[0] == 'n' && Lower(s)[1] == 'o' && Lower(s)[2] == 'n' && Lower(s)[3] == 'e';
    }
    if |s| == 4 && s[0] in "nN" && s[1] in "oO" && s[2] in "nN" && s[3] in "eE" {
      assert Lower(s) == "none";
    }
  }

  /** `s.split(sep)` for a one-character separator: every piece between two
      separators, including empty pieces at either end. */
  function Split(s: string, sep: char): (parts: seq<string>)
    ensures |parts| >= 1
    ensures forall k :: 0 <= k < |parts| ==> sep !in parts[k]
    decreases |s|
  {
    if |s| == 0 then [""]
    else
      var rest := Split(s[1..], sep);
      if s[0] == sep then [""] + rest
      else [[s[0]] + rest[0]] + rest[1..]
  }

  /** `parts.join(sep)`. */
  function Join(parts: seq<string>, sep: char): string
    requires |parts| >= 1
    decreases |parts|
  {
    if |parts| == 1 then parts[0] else parts[0] + [sep] + Join(parts[1..], sep)
  }

  /** Joining the pieces of a split gives back the original string. */
  lemma {:induction false} JoinSplit(s: string, sep: char)
    ensures Join(Split(s, sep), sep) == s
    decreases |s|
  {
    if |s| > 0 {
      var rest := Split(s[1..], sep);
      JoinSplit(s[1..], sep);
      if s[0] == sep {
        assert ([""] + rest)[1..] == rest;
      } else {
        var parts := [[s[0]] + rest[0]] + rest[1..];
        if |rest| == 1 {
          assert parts == [[s[0]] + rest[0]];
        } else {
          assert parts[1..] == rest[1..];
          assert Join(rest, sep) == rest[0] + [sep] + Join(rest[1..], sep);
        }
      }
    }
  }

  /** A string without the separator splits into itself. */
  lemma {:induction false} SplitWithoutSeparator(a: string, sep: char)
    requires sep !in a
    ensures Split(a, sep) == [a]
    decreases |a|
  {
    if |a| > 0 {
      SplitWithoutSeparator(a[1..], sep);
      assert [a[0]] + a[1..] == a;
    }
  }

  /** Splitting at the first separator peels off the piece before it. */
  lemma {:induction false} SplitAtFirst(a: string, b: string, sep: char)
    requires sep !in a
    ensures Split(a + [sep] + b, sep) == [a] + Split(b, sep)
    decreases |a|
  {
    var s := a + [sep] + b;
    if |a| == 0 {
      assert s[0] == sep && s[1..] == b;
    } else {
      assert s[0] == a[0] && s[1..] == a[1..] + [sep] + b;
      SplitAtFirst(a[1..], b, sep);
      assert [a[0]] + a[1..] == a;
    }
  }

  /** Splitting a join of separator-free pieces gives back the pieces. */
  lemma {:induction false} SplitJoin(parts: seq<string>, sep: char)
    requires |parts| >= 1
    requires forall k :: 0 <= k < |parts| ==> sep !in parts[k]
    ensures Split(Join(parts, sep), sep) == parts
    decreases |parts|
  {
    if |parts| == 1 {
      SplitWithoutSeparator(parts[0], sep);
    } else {
      SplitJoin(parts[1..], sep);
      SplitAtFirst(parts[0], Join(parts[1..], sep), sep);
      assert [parts[0]] + parts[1..] == parts;
    }
  }
}
