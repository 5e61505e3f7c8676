/** The text operations both token scripts use to put a new token into the `.env`
    file: `String.prototype.replace` with the regular expression `AUTH_BEARER_TOKEN=.*`
    (once, or with the `g` flag on every match), the `$` patterns of its replacement
    text, and `trimEnd`. */
module EnvRewrite {
  import opened Wrappers
  import opened Strings

  /** The key both scripts look for; the pattern is this text followed by `.*`. */
  const KEY: string := "AUTH_BEARER_TOKEN="

  predicate NoDollar(t: string)
  {
    forall j :: 0 <= j < |t| ==> t[j] != '$'
  }

  /** The replacement text for one match, as the GetSubstitution operation of ECMA-262
      builds it for a pattern without capture groups: `$$` is a dollar sign, `$&` the
      match, `` $` `` the text before it and `$'` the text after it; any other `$`
      (including `$1` and `$<`) stays as it is. */
  function Substitute(template: string, matched: string, before: string, after: string): string
    decreases |template|
  {
    if template == [] then []
    else if |template| >= 2 && template[0] == '$' && template[1] == '$' then "$" + Substitute(template[2..], matched, before, after)
    else if |template| >= 2 && template[0] == '$' && template[1] == '&' then matched + Substitute(template[2..], matched, before, after)
    else if |template| >= 2 && template[0] == '$' && template[1] == '`' then before + Substitute(template[2..], matched, before, after)
    else if |template| >= 2 && template[0] == '$' && template[1] == '\'' then after + Substitute(template[2..], matched, before, after)
    else [template[0]] + Substitute(template[1..], matched, before, after)
  }

  /** A replacement without a dollar sign is inserted as it is. */
  lemma {:induction false} SubstituteLiteral(template: string, matched: string, before: string, after: string)
    requires NoDollar(template)
    ensures Substitute(template, matched, before, after) == template
  {
    if template != [] {
      SubstituteLiteral(template[1..], matched, before, after);
    }
  }

  /** A dollar-free start of the replacement is copied as it is, whatever follows it. */
  lemma {:induction false} SubstitutePrefix(p: string, t: string, matched: string, before: string, after: string)
    requires NoDollar(p)
    ensures Substitute(p + t, matched, before, after) == p + Substitute(t, matched, before, after)
  {
    if p != [] {
      assert (p + t)[0] == p[0] != '$';
      assert (p + t)[1..] == p[1..] + t;
      assert Substitute(p + t, matched, before, after) == [p[0]] + Substitute(p[1..] + t, matched, before, after);
      SubstitutePrefix(p[1..], t, matched, before, after);
      assert p == [p[0]] + p[1..];
    } else {
      assert p + t == t;
    }
  }

  /** The line both scripts write is inserted as it is when the token has no dollar
      sign. */
  lemma SubstituteLine(token: string, matched: string, before: string, after: string)
    requires NoDollar(token)
    ensures Substitute(KEY + token, matched, before, after) == KEY + token
  {
    SubstitutePrefix(KEY, token, matched, before, after);
    SubstituteLiteral(token, matched, before, after);
  }

  /** A `$&` in a token brings the whole matched line back after the key. */
  lemma MatchPatternExpands(matched: string, before: string, after: string)
    ensures Substitute(KEY + "$&", matched, before, after) == KEY + matched
  {
    SubstitutePrefix(KEY, "$&", matched, before, after);
    assert "$&"[2..] == [];
  }

  /** Where the match of `KEY.*` that starts at `i` ends: the end of that line. */
  function MatchEnd(s: string, i: nat): (e: nat)
    requires OccursAt(s, KEY, i)
    ensures i + |KEY| <= e <= |s|
  {
    LineEnd(s, i + |KEY|)
  }

  /** `s.replace` with the pattern `AUTH_BEARER_TOKEN=.*` and no flags: the first occurrence of the key and
      the rest of its line give way to the replacement; without one, `s` itself. */
  function ReplaceFirst(s: string, template: string): string
  {
    match IndexOf(s, KEY)
    case None => s
    case Some(i) =>
      var e := MatchEnd(s, i);
      s[..i] + Substitute(template, s[i..e], s[..i], s[e..]) + s[e..]
  }

  /** `s.replace` with the same pattern and the `g` flag, from `from` on: every match is
      replaced, and the search resumes where the last match ended. */
  function ReplaceAllFrom(s: string, template: string, from: nat): string
    requires from <= |s|
    decreases |s| - from
  {
    match IndexFrom(s, KEY, from)
    case None => s[from..]
    case Some(i) =>
      var e := MatchEnd(s, i);
      s[from..i] + Substitute(template, s[i..e], s[..i], s[e..]) + ReplaceAllFrom(s, template, e)
  }

  function ReplaceAll(s: string, template: string): string
  {
    ReplaceAllFrom(s, template, 0)
  }

  /** The two replacements treat the first match alike; they differ only after the end of
      its line, and not at all when no other match follows. */
  lemma ReplaceAllExtendsReplaceFirst(s: string, template: string)
    requires Contains(s, KEY)
    ensures var i := IndexOf(s, KEY).value;
            var e := MatchEnd(s, i);
            var sub := Substitute(template, s[i..e], s[..i], s[e..]);
            && ReplaceFirst(s, template) == s[..i] + sub + s[e..]
            && ReplaceAll(s, template) == s[..i] + sub + ReplaceAllFrom(s, template, e)
            && (IndexFrom(s, KEY, e).None? ==> ReplaceAll(s, template) == ReplaceFirst(s, template))
  {
    var i := IndexOf(s, KEY).value;
    assert s[0..i] == s[..i];
  }

  /** Text without the key comes through the global replacement unchanged. */
  lemma ReplaceAllWithoutKey(s: string, template: string, from: nat)
    requires from <= |s|
    requires forall j :: from <= j ==> !OccursAt(s, KEY, j)
    ensures ReplaceAllFrom(s, template, from) == s[from..]
  {
  }

  /** The value at the first occurrence of the key, found the way the scripts' regular
      expression finds it: the rest of the line after that occurrence, wherever it
      falls. It is the value `dotenv` reads only when that occurrence starts a line that
      is not a comment. */
  function FirstValue(s: string): Option<string>
  {
    match IndexOf(s, KEY)
    case None => None
    case Some(i) => Some(s[i + |KEY|..MatchEnd(s, i)])
  }

  /** A line starts at `p`. */
  predicate StartsLine(s: string, p: nat)
  {
    p <= |s| && (p == 0 || IsLineTerminator(s[p - 1]))
  }

  /** Text that starts with the key, put after `pre`, is where the key is first found
      when `pre + KEY` has no earlier occurrence. */
  lemma FirstKeyAt(pre: string, tail: string)
    requires |KEY| <= |tail| && tail[..|KEY|] == KEY
    requires forall j :: 0 <= j < |pre| ==> !OccursAt(pre + KEY, KEY, j)
    ensures IndexOf(pre + tail, KEY) == Some(|pre|)
  {
    var r := pre + tail;
    assert r[|pre|..|pre| + |KEY|] == KEY;
    forall j | 0 <= j < |pre|
      ensures !OccursAt(r, KEY, j)
    {
      assert r[j..j + |KEY|] == (pre + KEY)[j..j + |KEY|];
      assert !OccursAt(pre + KEY, KEY, j);
    }
    IndexOfUnique(r, KEY, |pre|);
  }

  /** The key is first found right after `pre` if it is not found earlier in `pre + KEY`;
      a token without line terminators is then read back whole, whatever follows on a new
      line. */
  lemma ReadBack(pre: string, token: string, rest: string)
    requires forall j :: 0 <= j < |pre| ==> !OccursAt(pre + KEY, KEY, j)
    requires NoLineTerminator(token)
    requires rest == [] || IsLineTerminator(rest[0])
    ensures IndexOf(pre + (KEY + token) + rest, KEY) == Some(|pre|)
    ensures FirstValue(pre + (KEY + token) + rest) == Some(token)
  {
    var tail := (KEY + token) + rest;
    var r := pre + tail;
    assert pre + (KEY + token) + rest == r;
    assert tail[..|KEY|] == KEY;
    FirstKeyAt(pre, tail);
    var n := |pre| + |KEY|;
    assert r[n..n + |token|] == token;
    forall j | n <= j < n + |token|
      ensures !IsLineTerminator(r[j])
    {
      assert r[j] == token[j - n];
    }
    if rest != [] {
      assert r[n + |token|] == rest[0];
    }
    LineEndUnique(r, n, n + |token|);
  }

  /** In front of the first occurrence of the key, `s[..i] + KEY` has no earlier one. */
  lemma KeyFirstInPrefix(s: string, i: nat)
    requires IndexOf(s, KEY) == Some(i)
    ensures forall j :: 0 <= j < i ==> !OccursAt(s[..i] + KEY, KEY, j)
  {
    assert s[..i] + KEY == s[..i + |KEY|];
    forall j | 0 <= j < i
      ensures !OccursAt(s[..i] + KEY, KEY, j)
    {
      assert s[..i + |KEY|][j..j + |KEY|] == s[j..j + |KEY|];
      assert !OccursAt(s, KEY, j);
    }
  }

  lemma KeyHasNoLineTerminator()
    ensures NoLineTerminator(KEY)
  {
  }

  /** Text without the key followed by one line terminator has no occurrence of the key
      before the key appended after it. */
  lemma KeyFirstAfterNewline(c: string, nl: char)
    requires !Contains(c, KEY) && IsLineTerminator(nl)
    ensures forall j :: 0 <= j < |c + [nl]| ==> !OccursAt(c + [nl] + KEY, KEY, j)
  {
    var p := c + [nl];
    KeyHasNoLineTerminator();
    forall j | 0 <= j < |p|
      ensures !OccursAt(p + KEY, KEY, j)
    {
      if j + |KEY| <= |c| {
        assert (p + KEY)[j..j + |KEY|] == c[j..j + |KEY|];
        assert !OccursAt(c, KEY, j);
      } else {
        assert (p + KEY)[|c|] == nl;
        assert KEY[|c| - j] != nl;
        assert (p + KEY)[j..j + |KEY|][|c| - j] == nl;
      }
    }
  }

  /** Replacing the first key's line with the key and a plain token keeps the text
      around that line, and the first occurrence of the key then reads back that
      token. */
  lemma ReplaceFirstReadBack(s: string, token: string)
    requires Contains(s, KEY) && NoDollar(token) && NoLineTerminator(token)
    ensures var i := IndexOf(s, KEY).value;
            var r := ReplaceFirst(s, KEY + token);
            r == s[..i] + (KEY + token) + s[MatchEnd(s, i)..] && FirstValue(r) == Some(token)
  {
    var i := IndexOf(s, KEY).value;
    var e := MatchEnd(s, i);
    SubstituteLine(token, s[i..e], s[..i], s[e..]);
    assert ReplaceFirst(s, KEY + token) == s[..i] + (KEY + token) + s[e..];
    KeyFirstInPrefix(s, i);
    if e < |s| {
      assert s[e..][0] == s[e];
    }
    ReadBack(s[..i], token, s[e..]);
  }

  /** The global replacement resumed at a line terminator starts with that terminator:
      the key cannot begin there. */
  lemma ReplaceAllFromLineStart(s: string, template: string, from: nat)
    requires from <= |s| && (from == |s| || IsLineTerminator(s[from]))
    ensures var rest := ReplaceAllFrom(s, template, from);
            from < |s| ==> rest != [] && rest[0] == s[from]
  {
    if from < |s| {
      KeyHasNoLineTerminator();
      assert !OccursAt(s, KEY, from);
    }
  }

  /** The global replacement is the text before the first key, what the first match
      becomes, and the replacement resumed at the end of that line. */
  lemma ReplaceAllShape(s: string, template: string, line: string)
    requires Contains(s, KEY)
    requires var i := IndexOf(s, KEY).value;
             var e := MatchEnd(s, i);
             Substitute(template, s[i..e], s[..i], s[e..]) == line
    ensures var i := IndexOf(s, KEY).value;
            ReplaceAll(s, template) == s[..i] + line + ReplaceAllFrom(s, template, MatchEnd(s, i))
  {
    ReplaceAllExtendsReplaceFirst(s, template);
  }

  /** One step of the global replacement: the text up to the next key, what that match
      becomes, and the replacement resumed at the end of its line. */
  lemma ReplaceAllFromStep(s: string, template: string, from: nat, line: string)
    requires from <= |s| && IndexFrom(s, KEY, from).Some?
    requires var i := IndexFrom(s, KEY, from).value;
             var e := MatchEnd(s, i);
             Substitute(template, s[i..e], s[..i], s[e..]) == line
    ensures var i := IndexFrom(s, KEY, from).value;
            ReplaceAllFrom(s, template, from) == s[from..i] + line + ReplaceAllFrom(s, template, MatchEnd(s, i))
  {
  }

  /** Replacing every key's line with the key and a plain token keeps the text before
      the first one and makes the file give the key that token. */
  lemma ReplaceAllReadBack(s: string, token: string)
    requires Contains(s, KEY) && NoDollar(token) && NoLineTerminator(token)
    ensures var i := IndexOf(s, KEY).value;
            var r := ReplaceAll(s, KEY + token);
            r == s[..i] + (KEY + token) + ReplaceAllFrom(s, KEY + token, MatchEnd(s, i)) && FirstValue(r) == Some(token)
  {
    var i := IndexOf(s, KEY).value;
    var e := MatchEnd(s, i);
    SubstituteLine(token, s[i..e], s[..i], s[e..]);
    ReplaceAllShape(s, KEY + token, KEY + token);
    ReplaceAllFromLineStart(s, KEY + token, e);
    KeyFirstInPrefix(s, i);
    ReadBack(s[..i], token, ReplaceAllFrom(s, KEY + token, e));
  }

  /** A line appended after a line terminator to text without the key is the one the
      key is read from. */
  lemma AppendReadBack(c: string, nl: char, token: string)
    requires !Contains(c, KEY) && IsLineTerminator(nl) && NoLineTerminator(token)
    ensures FirstValue(c + [nl] + (KEY + token) + "\n") == Some(token)
    ensures StartsLine(c + [nl] + (KEY + token) + "\n", |c| + 1)
  {
    KeyFirstAfterNewline(c, nl);
    ReadBack(c + [nl], token, "\n");
  }

  /** A prefix of text without the key has no key either. */
  lemma PrefixHasNoKey(c: string, k: nat)
    requires !Contains(c, KEY) && k <= |c|
    ensures !Contains(c[..k], KEY)
  {
    forall j: nat
      ensures !OccursAt(c[..k], KEY, j)
    {
      if j + |KEY| <= k {
        assert c[..k][j..j + |KEY|] == c[j..j + |KEY|];
        assert !OccursAt(c, KEY, j);
      }
    }
  }

  /** The white space `trimEnd` removes: the WhiteSpace and LineTerminator characters of
      ECMA-262. */
  predicate IsJsSpace(c: char)
  {
    c == '\t' || c == '\U{000B}' || c == '\U{000C}' || c == ' ' || c == '\U{00A0}' || c == '\U{FEFF}'
    || c == '\U{1680}' || ('\U{2000}' <= c <= '\U{200A}') || c == '\U{202F}' || c == '\U{205F}' || c == '\U{3000}'
    || IsLineTerminator(c)
  }

  /** `s.trimEnd()`: `s` without its trailing white space. */
  function TrimEnd(s: string): (r: string)
    decreases |s|
    ensures |r| <= |s| && r == s[..|r|]
    ensures r == [] || !IsJsSpace(r[|r| - 1])
    ensures forall j :: |r| <= j < |s| ==> IsJsSpace(s[j])
  {
    if s != [] && IsJsSpace(s[|s| - 1]) then TrimEnd(s[..|s| - 1]) else s
  }
}
