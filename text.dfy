/**
 * Text: what the raw SQL builders do with strings. Joining with a separator,
 * the `s += part + sep` accumulation the loops perform, double-quoting of
 * identifiers, counting `?` placeholders, and reading quoted identifiers back
 * out of rendered text.
 */
module Text {

  /** `parts.join(sep)`: the parts with `sep` between consecutive ones. */
  function Join(parts: seq<string>, sep: string): string
    decreases |parts|
  {
    if |parts| == 0 then ""
    else if |parts| == 1 then parts[0]
    else parts[0] + sep + Join(parts[1..], sep)
  }

  /** What a loop doing `s += part + sep` for each part accumulates. */
  function Terminated(parts: seq<string>, sep: string): string
    decreases |parts|
  {
    if |parts| == 0 then "" else parts[0] + sep + Terminated(parts[1..], sep)
  }

  /** Regrouping a concatenation of four strings. */
  lemma AppendAssoc(a: string, b: string, c: string, d: string)
    ensures a + (b + c + d) == a + b + (c + d)
  {
  }

  /** One more loop iteration appends one more part and separator. */
  lemma {:induction false} TerminatedSnoc(parts: seq<string>, p: string, sep: string)
    ensures Terminated(parts + [p], sep) == Terminated(parts, sep) + p + sep
  {
    if |parts| == 0 {
      assert parts + [p] == [p];
      assert Terminated([p], sep) == p + sep + "";
    } else {
      var x := Terminated(parts[1..], sep);
      assert (parts + [p])[1..] == parts[1..] + [p];
      TerminatedSnoc(parts[1..], p, sep);
      assert Terminated(parts + [p], sep) == parts[0] + sep + (x + p + sep);
      assert parts[0] + sep + (x + p + sep) == (parts[0] + sep + x) + p + sep;
    }
  }

  /** The accumulated text is the joined text plus one trailing separator. */
  lemma {:induction false} TerminatedIsJoinPlusSep(parts: seq<string>, sep: string)
    requires |parts| > 0
    ensures Terminated(parts, sep) == Join(parts, sep) + sep
  {
    if |parts| == 1 {
      assert Terminated(parts, sep) == parts[0] + sep + "";
    } else {
      TerminatedIsJoinPlusSep(parts[1..], sep);
    }
  }

  /** `"name"`: an identifier inside double quotes, with no escaping. */
  function Quote(name: string): string
  {
    "\"" + name + "\""
  }

  /** `names.map(n => `"${n}"`)`. */
  function QuoteAll(names: seq<string>): (qs: seq<string>)
    ensures |qs| == |names|
    decreases |names|
  {
    if |names| == 0 then [] else [Quote(names[0])] + QuoteAll(names[1..])
  }

  /** Each name of the list is quoted in its own place. */
  lemma {:induction false} QuoteAllAt(names: seq<string>)
    ensures forall i :: 0 <= i < |names| ==> QuoteAll(names)[i] == Quote(names[i])
    decreases |names|
  {
    if |names| > 0 {
      QuoteAllAt(names[1..]);
      assert QuoteAll(names)[1..] == QuoteAll(names[1..]);
    }
  }

  /** Quoting one more name of a prefix adds its quoted form at the end. */
  lemma QuoteAllSnoc(names: seq<string>, i: nat)
    requires i < |names|
    ensures QuoteAll(names[..i + 1]) == QuoteAll(names[..i]) + [Quote(names[i])]
  {
    QuoteAllAt(names[..i + 1]);
    QuoteAllAt(names[..i]);
  }

  /** The number of `?` positional placeholders in `s`. */
  function Placeholders(s: string): nat
    decreases |s|
  {
    if |s| == 0 then 0 else (if s[0] == '?' then 1 else 0) + Placeholders(s[1..])
  }

  /** Placeholders of a concatenation add up. */
  lemma {:induction false} PlaceholdersConcat(a: string, b: string)
    ensures Placeholders(a + b) == Placeholders(a) + Placeholders(b)
    decreases |a|
  {
    if |a| == 0 {
      assert a + b == b;
    } else {
      assert (a + b)[0] == a[0];
      assert (a + b)[1..] == a[1..] + b;
      PlaceholdersConcat(a[1..], b);
    }
  }

  /** A string without `?` has no placeholders. */
  lemma {:induction false} NoPlaceholders(a: string)
    requires '?' !in a
    ensures Placeholders(a) == 0
    decreases |a|
  {
    if |a| > 0 {
      NoPlaceholders(a[1..]);
    }
  }

  /** The placeholders of all parts together. */
  function SumPlaceholders(parts: seq<string>): nat
    decreases |parts|
  {
    if |parts| == 0 then 0 else Placeholders(parts[0]) + SumPlaceholders(parts[1..])
  }

  /** Joining with a placeholder-free separator adds no placeholders. */
  lemma {:induction false} JoinPlaceholders(parts: seq<string>, sep: string)
    requires '?' !in sep
    ensures Placeholders(Join(parts, sep)) == SumPlaceholders(parts)
    decreases |parts|
  {
    if |parts| == 1 {
      assert SumPlaceholders(parts[1..]) == 0;
    } else if |parts| > 1 {
      JoinPlaceholders(parts[1..], sep);
      NoPlaceholders(sep);
      PlaceholdersConcat(parts[0], sep);
      PlaceholdersConcat(parts[0] + sep, Join(parts[1..], sep));
    }
  }

  /** Parts free of placeholders sum to none. */
  lemma {:induction false} SumPlaceholdersNone(parts: seq<string>)
    requires forall i :: 0 <= i < |parts| ==> '?' !in parts[i]
    ensures SumPlaceholders(parts) == 0
    decreases |parts|
  {
    if |parts| > 0 {
      NoPlaceholders(parts[0]);
      SumPlaceholdersNone(parts[1..]);
    }
  }

  /** A character absent from the separator and from every part is absent from the join. */
  lemma {:induction false} JoinAvoids(parts: seq<string>, sep: string, c: char)
    requires c !in sep
    requires forall i :: 0 <= i < |parts| ==> c !in parts[i]
    ensures c !in Join(parts, sep)
    decreases |parts|
  {
    if |parts| > 1 {
      JoinAvoids(parts[1..], sep, c);
    }
  }

  /** The index of the first `c` in `s`, or `|s|` when there is none. */
  function IndexOf(s: string, c: char): (j: nat)
    ensures j <= |s|
    ensures j < |s| ==> s[j] == c
    ensures forall i :: 0 <= i < j ==> s[i] != c
    decreases |s|
  {
    if |s| == 0 then 0 else if s[0] == c then 0 else 1 + IndexOf(s[1..], c)
  }

  /**
   * The identifiers a reader of `s` finds between double quotes, in order:
   * each opening quote is closed by the next quote; an unclosed one is dropped.
   */
  function QuotedNames(s: string): seq<string>
    decreases |s|
  {
    if |s| == 0 then []
    else if s[0] != '"' then QuotedNames(s[1..])
    else
      var j := IndexOf(s[1..], '"');
      if j == |s| - 1 then [] else [s[1..1 + j]] + QuotedNames(s[j + 2..])
  }

  /** Text without double quotes is skipped by the reader. */
  lemma {:induction false} QuotedNamesSkip(p: string, rest: string)
    requires '"' !in p
    ensures QuotedNames(p + rest) == QuotedNames(rest)
    decreases |p|
  {
    if |p| > 0 {
      assert (p + rest)[0] == p[0];
      assert (p + rest)[1..] == p[1..] + rest;
      QuotedNamesSkip(p[1..], rest);
    } else {
      assert p + rest == rest;
    }
  }

  /** The first `c` after a `c`-free prefix is the one right after it. */
  lemma IndexOfAfter(p: string, c: char, rest: string)
    requires c !in p
    ensures IndexOf(p + [c] + rest, c) == |p|
  {
    var t := p + [c] + rest;
    var j := IndexOf(t, c);
    assert t[|p|] == c;
  }

  /** An opening quote closed later: the name between the two, then the text after the closing one. */
  lemma QuotedNamesAt(s: string, j: nat)
    requires |s| > 0 && s[0] == '"' && j == IndexOf(s[1..], '"') && j < |s| - 1
    ensures QuotedNames(s) == [s[1..1 + j]] + QuotedNames(s[j + 2..])
  {
  }

  /** An opening quote that is never closed gives no name. */
  lemma QuotedNamesUnclosed(p: string)
    requires '"' !in p
    ensures QuotedNames(['"'] + p) == []
  {
    var s := ['"'] + p;
    assert s[1..] == p;
  }

  /** A quoted name without inner double quotes is read back as itself. */
  lemma QuotedNamesQuote(n: string, rest: string)
    requires '"' !in n
    ensures QuotedNames(Quote(n) + rest) == [n] + QuotedNames(rest)
  {
    QuoteSplit(n, rest);
    IndexOfAfter(n, '"', rest);
    QuotedNamesAt(Quote(n) + rest, |n|);
  }

  /** Where the parts of a quoted name followed by more text sit. */
  lemma QuoteSplit(n: string, rest: string)
    ensures var s := Quote(n) + rest;
            && |s| == |n| + 2 + |rest| && s[0] == '"'
            && s[1..] == n + ['"'] + rest && s[1..1 + |n|] == n && s[|n| + 2..] == rest
  {
    var s := Quote(n) + rest;
    assert s == ['"'] + (n + ['"'] + rest);
  }

  /** The first name of a longer list is read back, and the reader moves on to the rest of the list. */
  lemma QuotedNamesListStep(names: seq<string>, tail: string)
    requires |names| > 1 && '"' !in names[0]
    ensures QuotedNames(Join(QuoteAll(names), ", ") + tail)
         == [names[0]] + QuotedNames(Join(QuoteAll(names[1..]), ", ") + tail)
  {
    var qs := QuoteAll(names);
    var rest := Join(QuoteAll(names[1..]), ", ") + tail;
    assert qs[1..] == QuoteAll(names[1..]);
    assert Join(qs, ", ") + tail == Quote(names[0]) + (", " + rest);
    QuotedNamesQuote(names[0], ", " + rest);
    QuotedNamesSkip(", ", rest);
  }

  /**
   * A comma-separated list of quoted names is read back as the names, as
   * long as no name holds a double quote.
   */
  lemma {:induction false} QuotedNamesOfList(names: seq<string>, tail: string)
    requires |names| > 0
    requires forall i :: 0 <= i < |names| ==> '"' !in names[i]
    ensures QuotedNames(Join(QuoteAll(names), ", ") + tail) == names + QuotedNames(tail)
    decreases |names|
  {
    if |names| == 1 {
      assert Join(QuoteAll(names), ", ") == Quote(names[0]);
      QuotedNamesQuote(names[0], tail);
    } else {
      QuotedNamesListStep(names, tail);
      QuotedNamesOfList(names[1..], tail);
      assert names == [names[0]] + names[1..];
    }
  }
}
