/** Text handling around the race passage: the typographic normalisation
    applied to passages and to every candidate input (App.tsx:46), the
    whitespace trim applied to fetched passages, the JavaScript substring
    forms the engine uses, the SkipWord target, and the small string
    helpers behind player ids and the miss map. */
module Passage {
  import opened Types
  import opened Sequences

  // ---------------------------------------------------------------------
  // Typographic normalisation

  /** The six characters `normalizeText` rewrites: curly double quotes,
      curly single quotes, the em dash and the horizontal ellipsis. */
  predicate IsTypographic(c: char)
  {
    c == '\U{201C}' || c == '\U{201D}' || c == '\U{2018}' || c == '\U{2019}'
    || c == '\U{2014}' || c == '\U{2026}'
  }

  /** The replacement of one character. The four chained `replace` calls of
      the source act character by character, because no replacement text
      contains a character that a later pattern matches. */
  function NormalizeChar(c: char): (r: string)
    ensures forall i :: 0 <= i < |r| ==> !IsTypographic(r[i])
    ensures !IsTypographic(c) <==> r == [c]
  {
    if c == '\U{201C}' || c == '\U{201D}' then "\""
    else if c == '\U{2018}' || c == '\U{2019}' then "'"
    else if c == '\U{2014}' then "-"
    else if c == '\U{2026}' then "..."
    else [c]
  }

  /** `normalizeText`. */
  function Normalize(s: string): string
  {
    if s == [] then [] else NormalizeChar(s[0]) + Normalize(s[1..])
  }

  /** A string in which no typographic variant remains. */
  predicate IsPlain(s: string)
  {
    forall i :: 0 <= i < |s| ==> !IsTypographic(s[i])
  }

  /** Normalisation distributes over concatenation. */
  lemma {:induction false} NormalizeAppend(a: string, b: string)
    ensures Normalize(a + b) == Normalize(a) + Normalize(b)
  {
    if a == [] {
      assert a + b == b;
    } else {
      assert (a + b)[0] == a[0];
      assert (a + b)[1..] == a[1..] + b;
      NormalizeAppend(a[1..], b);
    }
  }

  /** Every normalised string is plain. */
  lemma {:induction false} NormalizeIsPlain(s: string)
    ensures IsPlain(Normalize(s))
  {
    if s != [] {
      NormalizeIsPlain(s[1..]);
      var h, t := NormalizeChar(s[0]), Normalize(s[1..]);
      assert forall i :: 0 <= i < |h + t| ==> (h + t)[i] == if i < |h| then h[i] else t[i - |h|];
    }
  }

  /** Normalisation changes a string exactly when it contains a variant. */
  lemma {:induction false} NormalizeFixesPlain(s: string)
    ensures Normalize(s) == s <==> IsPlain(s)
  {
    if s == [] {
    } else {
      NormalizeFixesPlain(s[1..]);
      if IsPlain(s) {
        assert IsPlain(s[1..]) by {
          forall i | 0 <= i < |s[1..]| ensures !IsTypographic(s[1..][i]) {
            assert s[1..][i] == s[i + 1];
          }
        }
        assert s == [s[0]] + s[1..];
      } else if Normalize(s) == s {
        NormalizeIsPlain(s);
      }
    }
  }

  /** Normalising twice is normalising once. */
  lemma NormalizeIdempotent(s: string)
    ensures Normalize(Normalize(s)) == Normalize(s)
  {
    NormalizeIsPlain(s);
    NormalizeFixesPlain(Normalize(s));
  }

  /** Typing the raw passage verbatim, curly punctuation included, yields
      candidates that are prefixes of the normalised passage: the raw prefix
      of length `k` normalises to a prefix of the normalised passage. */
  lemma RawPrefixStaysPrefix(p: string, k: nat)
    requires k <= |p|
    ensures IsPrefix(Normalize(p[..k]), Normalize(p))
  {
    assert p == p[..k] + p[k..];
    NormalizeAppend(p[..k], p[k..]);
  }

  // ---------------------------------------------------------------------
  // Prefixes and the JavaScript substring forms

  predicate IsPrefix(a: string, b: string)
  {
    |a| <= |b| && a == b[..|a|]
  }

  /** `s.substring(0, n)` for n >= 0 (the end index is clamped to the
      length). */
  function Head(s: string, n: nat): (r: string)
    ensures IsPrefix(r, s) && |r| == Min(n, |s|)
  {
    s[..Min(n, |s|)]
  }

  /** `s.substring(n)` for n >= 0 (empty when n is past the end). */
  function Tail(s: string, n: nat): (r: string)
    ensures s == Head(s, n) + r
  {
    s[Min(n, |s|)..]
  }

  /** A candidate `v` passes the match test of handleInputChange,
      `v === s.substring(0, v.length)` (App.tsx:361), exactly when it is a
      prefix of `s`; `Classify` relies on this reading. */
  lemma HeadTestIsPrefix(v: string, s: string)
    ensures v == Head(s, |v|) <==> IsPrefix(v, s)
  {
  }

  // ---------------------------------------------------------------------
  // SkipWord

  /** The new input after SkipWord (App.tsx:409-410): the rest of the passage
      after the input's length is searched for the next space, and the
      input becomes the passage up to and including it, or the whole
      passage when no space remains. */
  function SkipTarget(text: string, input: string): string
  {
    var rem := Tail(text, |input|);
    var nextSpace := FirstIndex(rem, ' ');
    var skip := if nextSpace == -1 then |rem| else nextSpace + 1;
    Head(text, |input| + skip)
  }

  /** The SkipWord target is a prefix of the passage. Past the end of the
      passage the input is cut back to the passage; otherwise the input's
      length never shrinks, and the new length ends just past the first
      space at or after it, or at the passage's end. */
  lemma SkipTargetSpec(text: string, input: string)
    ensures var r := SkipTarget(text, input);
      && IsPrefix(r, text)
      && (|input| >= |text| ==> r == text)
      && (|input| <= |text| ==> |input| <= |r|)
      && (|input| <= |text| ==>
            (|input| < |r| && r[|r| - 1] == ' ' && ' ' !in text[|input|..|r| - 1])
            || (r == text && ' ' !in text[|input|..]))
  {
    var rem := Tail(text, |input|);
    var nextSpace := FirstIndex(rem, ' ');
    if |input| <= |text| {
      assert rem == text[|input|..];
      assert nextSpace != -1 ==> rem[..nextSpace] == text[|input|..|input| + nextSpace];
    }
  }

  // ---------------------------------------------------------------------
  // Trim (`String.prototype.trim`, applied to every fetched passage)

  /** The characters JavaScript's `trim` removes: the white-space and
      line-terminator code points of ECMAScript. */
  predicate IsTrimmable(c: char)
  {
    c == '\t' || c == '\n' || c == '\U{000B}' || c == '\U{000C}' || c == '\r'
    || c == ' ' || c == '\U{00A0}' || c == '\U{1680}'
    || ('\U{2000}' <= c <= '\U{200A}')
    || c == '\U{2028}' || c == '\U{2029}' || c == '\U{202F}' || c == '\U{205F}'
    || c == '\U{3000}' || c == '\U{FEFF}'
  }

  function TrimStart(s: string): string
  {
    if s != [] && IsTrimmable(s[0]) then TrimStart(s[1..]) else s
  }

  function TrimEnd(s: string): string
  {
    if s != [] && IsTrimmable(s[|s| - 1]) then TrimEnd(s[..|s| - 1]) else s
  }

  /** `trim`: the string without leading and trailing white space. */
  function Trim(s: string): string
  {
    TrimEnd(TrimStart(s))
  }

  /** TrimStart drops exactly the leading white space. */
  lemma {:induction false} TrimStartSpec(s: string)
    ensures var r := TrimStart(s);
      && |r| <= |s| && r == s[|s| - |r|..]
      && (forall i :: 0 <= i < |s| - |r| ==> IsTrimmable(s[i]))
      && (r == [] || !IsTrimmable(r[0]))
  {
    if s != [] && IsTrimmable(s[0]) {
      TrimStartSpec(s[1..]);
      var r := TrimStart(s[1..]);
      assert forall i :: 1 <= i < |s| - |r| ==> s[i] == s[1..][i - 1];
    }
  }

  /** TrimEnd drops exactly the trailing white space. */
  lemma {:induction false} TrimEndSpec(s: string)
    ensures var r := TrimEnd(s);
      && |r| <= |s| && r == s[..|r|]
      && (forall i :: |r| <= i < |s| ==> IsTrimmable(s[i]))
      && (r == [] || !IsTrimmable(r[|r| - 1]))
  {
    if s != [] && IsTrimmable(s[|s| - 1]) {
      TrimEndSpec(s[..|s| - 1]);
      var r := TrimEnd(s[..|s| - 1]);
      assert forall i :: |r| <= i < |s| - 1 ==> s[i] == s[..|s| - 1][i];
    }
  }

  /** `trim` yields the contiguous middle of the string: everything before
      it and after it is white space, and it neither starts nor ends with
      white space. */
  lemma TrimSpec(s: string)
    ensures var r := Trim(s); var i := |s| - |TrimStart(s)|;
      && 0 <= i && i + |r| <= |s| && r == s[i..i + |r|]
      && (forall k :: 0 <= k < i ==> IsTrimmable(s[k]))
      && (forall k :: i + |r| <= k < |s| ==> IsTrimmable(s[k]))
      && (r == [] || (!IsTrimmable(r[0]) && !IsTrimmable(r[|r| - 1])))
  {
    var a := TrimStart(s);
    TrimStartSpec(s);
    TrimEndSpec(a);
    var r := TrimEnd(a);
    var i := |s| - |a|;
    assert a == s[i..];
    forall k | i + |r| <= k < |s| ensures IsTrimmable(s[k]) {
      assert s[k] == a[k - i];
    }
    if r != [] {
      assert r[0] == a[0];
    }
  }

  // ---------------------------------------------------------------------
  // Small string helpers

  /** ASCII `toLowerCase` of one character. */
  function LowerAscii(c: char): (r: char)
    ensures 'A' <= c <= 'Z' ==> r as int == c as int + 32
    ensures !('A' <= c <= 'Z') ==> r == c
  {
    if 'A' <= c <= 'Z' then (c as int + 32) as char else c
  }

  /** `s.toLowerCase()` on ASCII letters. */
  function LowerAsciiString(s: string): (r: string)
    ensures |r| == |s| && forall i :: 0 <= i < |s| ==> r[i] == LowerAscii(s[i])
  {
    seq(|s|, i requires 0 <= i < |s| => LowerAscii(s[i]))
  }

  function DigitChar(d: nat): (c: char)
    requires d < 10
    ensures '0' <= c <= '9' && c as int - '0' as int == d
  {
    ('0' as int + d) as char
  }

  /** The decimal rendering of a number, as in the template `bot${i+1}`. */
  function DecimalString(n: nat): (r: string)
    ensures |r| > 0 && r[|r| - 1] == DigitChar(n % 10)
  {
    if n < 10 then [DigitChar(n)] else DecimalString(n / 10) + [DigitChar(n % 10)]
  }

  /** `s.includes(t)`. */
  predicate Contains(s: string, t: string)
    decreases |s|
  {
    |t| <= |s| && (s[..|t|] == t || Contains(s[1..], t))
  }

  /** `parseInt(s.slice(-1))`: the value of the last character when it is a
      digit; None stands for NaN. */
  function LastDigit(s: string): (r: Option<nat>)
    ensures r.Some? <==> |s| > 0 && '0' <= s[|s| - 1] <= '9'
    ensures r.Some? ==> r.value < 10 && DigitChar(r.value) == s[|s| - 1]
  {
    if |s| > 0 && '0' <= s[|s| - 1] <= '9' then
      Some(s[|s| - 1] as int - '0' as int)
    else None
  }

  /** A generated bot id `"bot" + n` contains "bot" and ends in n's last
      decimal digit. */
  lemma BotIdShape(n: nat)
    ensures Contains("bot" + DecimalString(n), "bot")
    ensures LastDigit("bot" + DecimalString(n)) == Some(n % 10)
  {
    var id := "bot" + DecimalString(n);
    assert id[..3] == "bot";
    assert id[|id| - 1] == DigitChar(n % 10);
  }
}
