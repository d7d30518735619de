/**
 * Rewriting of merge-tag placeholders: every `*|TOKEN|*` becomes `{{TOKEN}}`.
 * The scan goes left to right; at each position a token is an opening `*|`,
 * at least one character of any kind, and the nearest closing `|*` after it,
 * so the shortest token wins. Text outside tokens is copied as it is.
 */
module Placeholder {
  import opened Wrappers

  /** A closing `|*` follows a token of k characters that starts at position 2 of s. */
  predicate ClosesAt(s: string, k: int)
  {
    0 <= k && 4 + k <= |s| && s[2 + k] == '|' && s[3 + k] == '*'
  }

  /** The shortest token length k >= from that is followed by `|*`, if any. */
  function FindClose(s: string, from: nat): (r: Option<nat>)
    ensures r.Some? ==> from <= r.value && ClosesAt(s, r.value)
    ensures forall j :: from <= j && (r.None? || j < r.value) ==> !ClosesAt(s, j)
    decreases |s| - from
  {
    if 4 + from > |s| then None
    else if s[2 + from] == '|' && s[3 + from] == '*' then Some(from)
    else FindClose(s, from + 1)
  }

  /** The length of the token that s starts with, if s starts with a placeholder. */
  function TokenAt(s: string): (r: Option<nat>)
    ensures r.Some? ==> 1 <= r.value && 4 + r.value <= |s| && s[0] == '*' && s[1] == '|' && ClosesAt(s, r.value)
    ensures r.Some? ==> forall j :: 1 <= j < r.value ==> !ClosesAt(s, j)
    ensures r.None? <==> !(2 <= |s| && s[0] == '*' && s[1] == '|' && exists k :: 1 <= k && ClosesAt(s, k))
  {
    if 2 <= |s| && s[0] == '*' && s[1] == '|' then FindClose(s, 1) else None
  }

  /** No position of s starts a placeholder. */
  predicate NoPlaceholder(s: string)
  {
    forall i :: 0 <= i <= |s| ==> TokenAt(s[i..]).None?
  }

  /** The rewrite; it keeps the length of the text. */
  function Convert(s: string): (r: string)
    ensures |r| == |s|
    decreases |s|
  {
    if s == [] then []
    else match TokenAt(s)
      case Some(k) => "{{" + s[2..2 + k] + "}}" + Convert(s[4 + k..])
      case None => [s[0]] + Convert(s[1..])
  }

  /** Only delimiters change: a character that differs was an asterisk or a pipe and became a brace. */
  predicate OnlyDelimitersChanged(s: string, r: string)
    requires |r| == |s|
  {
    forall i :: 0 <= i < |s| ==>
      r[i] == s[i] || ((s[i] == '*' || s[i] == '|') && (r[i] == '{' || r[i] == '}'))
  }

  /** The rewrite of a text that starts with a placeholder of k characters. */
  lemma DelimitersOfToken(s: string, k: nat)
    requires TokenAt(s) == Some(k)
    requires OnlyDelimitersChanged(s[4 + k..], Convert(s[4 + k..]))
    ensures OnlyDelimitersChanged(s, Convert(s))
  {
    var rest := s[4 + k..];
    var r := Convert(s);
    assert r == "{{" + s[2..2 + k] + "}}" + Convert(rest);
    forall i | 0 <= i < |s|
      ensures r[i] == s[i] || ((s[i] == '*' || s[i] == '|') && (r[i] == '{' || r[i] == '}'))
    {
      if i >= 4 + k {
        assert r[i] == Convert(rest)[i - 4 - k] && s[i] == rest[i - 4 - k];
      }
    }
  }

  /** The rewrite of a text that does not start with a placeholder. */
  lemma DelimitersOfChar(s: string)
    requires s != [] && TokenAt(s).None?
    requires OnlyDelimitersChanged(s[1..], Convert(s[1..]))
    ensures OnlyDelimitersChanged(s, Convert(s))
  {
    var r := Convert(s);
    assert r == [s[0]] + Convert(s[1..]);
    forall i | 1 <= i < |s|
      ensures r[i] == Convert(s[1..])[i - 1] && s[i] == s[1..][i - 1]
    {
    }
  }

  lemma {:induction false} ConvertChangesOnlyDelimiters(s: string)
    ensures OnlyDelimitersChanged(s, Convert(s))
    decreases |s|
  {
    if s != [] {
      match TokenAt(s)
      case Some(k) =>
        ConvertChangesOnlyDelimiters(s[4 + k..]);
        DelimitersOfToken(s, k);
      case None =>
        ConvertChangesOnlyDelimiters(s[1..]);
        DelimitersOfChar(s);
    }
  }


  /** A text that starts with a placeholder holds one, and its rewrite starts with a brace instead. */
  lemma TokenIsChanged(s: string)
    requires TokenAt(s).Some?
    ensures Convert(s) != s && !NoPlaceholder(s)
  {
    assert Convert(s)[0] == '{' != s[0];
    assert s[0..] == s;
  }

  /** Past a first character that starts no placeholder, both sides of the equivalence look at the rest. */
  lemma SkipFirst(s: string)
    requires s != [] && TokenAt(s).None?
    ensures Convert(s) == s <==> Convert(s[1..]) == s[1..]
    ensures NoPlaceholder(s) <==> NoPlaceholder(s[1..])
  {
    assert Convert(s) == [s[0]] + Convert(s[1..]);
    assert s == [s[0]] + s[1..];
    forall i | 1 <= i <= |s| ensures s[i..] == s[1..][i - 1..] { }
    assert s[0..] == s;
  }

  /** The rewrite leaves a text unchanged exactly when it holds no placeholder. */
  lemma {:induction false} ConvertUnchanged(s: string)
    ensures Convert(s) == s <==> NoPlaceholder(s)
    decreases |s|
  {
    if s == [] {
      assert s[0..] == s;
    } else if TokenAt(s).Some? {
      TokenIsChanged(s);
    } else {
      ConvertUnchanged(s[1..]);
      SkipFirst(s);
    }
  }

  /** A placeholder whose name holds no pipe is recognised with exactly that name. */
  lemma TokenOfName(name: string, after: string)
    requires |name| > 0 && '|' !in name
    ensures TokenAt("*|" + name + "|*" + after) == Some(|name|)
  {
    var s := "*|" + name + "|*" + after;
    assert s[2 + |name|] == '|' && s[3 + |name|] == '*';
    assert ClosesAt(s, |name|);
    forall j | 1 <= j < |name| ensures !ClosesAt(s, j) {
      assert s[2 + j] == name[j];
    }
  }

  /** A text that starts with a placeholder of that name. */
  lemma ConvertLeadingToken(name: string, after: string)
    requires |name| > 0 && '|' !in name
    ensures Convert("*|" + name + "|*" + after) == "{{" + name + "}}" + Convert(after)
  {
    var t := "*|" + name + "|*" + after;
    TokenOfName(name, after);
    assert t[2..2 + |name|] == name;
    assert t[4 + |name|..] == after;
  }

  /** A text that starts with anything but an asterisk keeps its first character. */
  lemma ConvertLeadingChar(c: char, rest: string)
    requires c != '*'
    ensures Convert([c] + rest) == [c] + Convert(rest)
  {
    assert ([c] + rest)[1..] == rest;
  }

  /** No placeholder starts at any position of `before` inside the text `before + after`. */
  predicate StartsNoToken(before: string, after: string)
  {
    forall i :: 0 <= i < |before| ==> TokenAt((before + after)[i..]).None?
  }

  /** Text without an asterisk starts no placeholder, whatever follows it. */
  lemma AsteriskFreeStartsNoToken(before: string, after: string)
    requires '*' !in before
    ensures StartsNoToken(before, after)
  {
    forall i | 0 <= i < |before| ensures TokenAt((before + after)[i..]).None? {
      assert (before + after)[i..][0] == before[i];
    }
  }

  /** Dropping the first character of `before` keeps the property for the rest. */
  lemma StartsNoTokenTail(before: string, after: string)
    requires before != [] && StartsNoToken(before, after)
    ensures StartsNoToken(before[1..], after)
    ensures Convert(before + after) == [before[0]] + Convert(before[1..] + after)
  {
    assert (before + after)[0..] == before + after;
    assert (before + after)[1..] == before[1..] + after;
    forall i | 0 <= i < |before| - 1 ensures (before[1..] + after)[i..] == (before + after)[i + 1..] {
    }
  }

  /** A non-empty text followed by another, split after its first character. */
  lemma SplitFirst(before: string, rest: string)
    requires before != []
    ensures before + rest == [before[0]] + (before[1..] + rest)
  {
  }

  /**
   * A prefix in which no placeholder starts is copied as it is, asterisks and
   * pipes included, and the rest is rewritten on its own.
   */
  lemma {:induction false} ConvertPrefix(before: string, after: string)
    requires StartsNoToken(before, after)
    ensures Convert(before + after) == before + Convert(after)
    decreases |before|
  {
    if before != [] {
      StartsNoTokenTail(before, after);
      ConvertPrefix(before[1..], after);
      SplitFirst(before, Convert(after));
    } else {
      assert before + after == after;
    }
  }

  /** Text without an asterisk holds no placeholder and is left as it is. */
  lemma ConvertWithoutAsterisk(s: string)
    requires '*' !in s
    ensures Convert(s) == s
  {
    AsteriskFreeStartsNoToken(s, []);
    ConvertPrefix(s, []);
    assert s + [] == s;
  }

  /** Regrouping a concatenation of five texts. */
  lemma Regroup(a: string, b: string, c: string, d: string, e: string)
    ensures a + b + c + d + e == a + (b + c + d + e)
  {
  }

  /**
   * A text with one placeholder whose name holds no pipe, preceded by text in
   * which no placeholder starts: the placeholder becomes `{{name}}`, the text
   * before it is unchanged, and the rewrite carries on after it.
   */
  lemma ConvertToken(before: string, name: string, after: string)
    requires StartsNoToken(before, "*|" + name + "|*" + after)
    requires |name| > 0 && '|' !in name
    ensures Convert(before + "*|" + name + "|*" + after) == before + "{{" + name + "}}" + Convert(after)
  {
    Regroup(before, "*|", name, "|*", after);
    ConvertPrefix(before, "*|" + name + "|*" + after);
    ConvertLeadingToken(name, after);
    Regroup(before, "{{", name, "}}", Convert(after));
  }

  /** An asterisk that opens no placeholder is kept, even right before one. */
  lemma StrayAsteriskKept(name: string, after: string)
    requires |name| > 0 && '|' !in name
    ensures Convert("*" + "*|" + name + "|*" + after) == "*" + "{{" + name + "}}" + Convert(after)
  {
    var rest := "*|" + name + "|*" + after;
    assert ("*" + rest)[0..][1] == '*';
    ConvertToken("*", name, after);
  }
}
