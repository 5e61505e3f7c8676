/** What refresh-token.js does with text: the cookie jar of `OpenAIAuth` (filled from
    `set-cookie` headers, sent back as one `Cookie` header) and the rewrite of the
    `.env` content once a new access token is obtained. */
module RefreshToken {
  import opened Wrappers
  import opened Strings
  import opened EnvRewrite

  /** The `set-cookie` value of a response: absent, one string, or an array of them. */
  datatype SetCookieHeaders = NoHeaders | One(header: string) | Many(headers: seq<string>)

  /** The headers `parseCookies` walks through: none for a falsy value (absent or the
      empty string), a single string as a list of one. */
  function HeaderList(h: SetCookieHeaders): seq<string>
  {
    match h
    case NoHeaders => []
    case One(header) => if header == "" then [] else [header]
    case Many(headers) => headers
  }

  /** The name and value of one header: `split(';')[0]` keeps the text before the first
      ';'; the name is what comes before its first '=', the value the rest, later '='
      included (`parts.slice(1).join('=')`), or empty without an '='. */
  function CookiePair(header: string): (r: (string, string))
    ensures ';' !in r.0 && ';' !in r.1 && '=' !in r.0
    ensures var text := header[..CharIndex(header, ';')];
            if '=' in text then r.0 + "=" + r.1 == text else r == (text, "")
  {
    var text := header[..CharIndex(header, ';')];
    var k := CharIndex(text, '=');
    assert '=' !in text[..k];
    if k < |text| then
      assert text == text[..k] + "=" + text[k + 1..];
      (text[..k], text[k + 1..])
    else (text, "")
  }

  /** A cookie is kept only with a value other than '' and 'null'. */
  predicate Storable(value: string)
  {
    value != "" && value != "null"
  }

  /** The jar: `this.cookies`, a plain object whose entries keep their insertion order. */
  type Jar = seq<(string, string)>

  function Names(jar: Jar): seq<string>
    decreases |jar|
  {
    if jar == [] then [] else [jar[0].0] + Names(jar[1..])
  }

  function Lookup(jar: Jar, name: string): Option<string>
    decreases |jar|
  {
    if jar == [] then None else if jar[0].0 == name then Some(jar[0].1) else Lookup(jar[1..], name)
  }

  predicate UniqueNames(jar: Jar)
  {
    forall i, j :: 0 <= i < j < |jar| ==> jar[i].0 != jar[j].0
  }

  /** `this.cookies[name] = value`: an existing entry takes the new value where it is, a
      new name goes at the end. */
  function Put(jar: Jar, name: string, value: string): Jar
    decreases |jar|
  {
    if jar == [] then [(name, value)]
    else if jar[0].0 == name then [(name, value)] + jar[1..]
    else [jar[0]] + Put(jar[1..], name, value)
  }

  /** After the assignment the name has the new value and every other name keeps its
      own. */
  lemma {:induction false} PutLookup(jar: Jar, name: string, value: string)
    ensures Lookup(Put(jar, name, value), name) == Some(value)
    ensures forall other :: other != name ==> Lookup(Put(jar, name, value), other) == Lookup(jar, other)
    decreases |jar|
  {
    if jar != [] && jar[0].0 != name {
      PutLookup(jar[1..], name, value);
      assert Put(jar, name, value)[1..] == Put(jar[1..], name, value);
    }
  }

  /** The names keep their order; a new one is added last. */
  lemma {:induction false} PutNames(jar: Jar, name: string, value: string)
    ensures Names(Put(jar, name, value)) == if name in Names(jar) then Names(jar) else Names(jar) + [name]
    decreases |jar|
  {
    if jar != [] && jar[0].0 != name {
      PutNames(jar[1..], name, value);
      assert Put(jar, name, value)[1..] == Put(jar[1..], name, value);
      assert Names(jar) == [jar[0].0] + Names(jar[1..]);
      assert name in Names(jar) <==> name in Names(jar[1..]);
      if name !in Names(jar) {
        assert [jar[0].0] + (Names(jar[1..]) + [name]) == Names(jar) + [name];
      }
    }
  }

  /** Every entry after the assignment is the new one or an old one. */
  lemma {:induction false} PutEntries(jar: Jar, name: string, value: string)
    ensures forall y :: y in Put(jar, name, value) ==> y == (name, value) || y in jar
    decreases |jar|
  {
    if jar != [] && jar[0].0 != name {
      PutEntries(jar[1..], name, value);
      assert Put(jar, name, value) == [jar[0]] + Put(jar[1..], name, value);
    }
  }

  /** Distinct names stay distinct. */
  lemma {:induction false} PutKeepsUnique(jar: Jar, name: string, value: string)
    requires UniqueNames(jar)
    ensures UniqueNames(Put(jar, name, value))
    decreases |jar|
  {
    if jar != [] && jar[0].0 != name {
      var r := Put(jar, name, value);
      assert r[0] == jar[0] && r[1..] == Put(jar[1..], name, value);
      assert UniqueNames(r[1..]) by {
        PutKeepsUnique(jar[1..], name, value);
      }
      forall j | 0 < j < |r|
        ensures r[0].0 != r[j].0
      {
        assert r[j] == r[1..][j - 1] && r[1..][j - 1] in r[1..];
        PutEntries(jar[1..], name, value);
        if r[j] != (name, value) {
          assert r[j] in jar[1..];
          var i :| 0 <= i < |jar[1..]| && jar[1..][i] == r[j];
          assert jar[i + 1] == r[j];
        }
      }
    }
  }

  /** One header handled by the `forEach`. */
  function Absorb(jar: Jar, header: string): Jar
  {
    var (name, value) := CookiePair(header);
    if Storable(value) then Put(jar, name, value) else jar
  }

  /** The jar after the headers have been handled in order. */
  function AbsorbAll(jar: Jar, headers: seq<string>): Jar
    decreases |headers|
  {
    if headers == [] then jar else Absorb(AbsorbAll(jar, headers[..|headers| - 1]), headers[|headers| - 1])
  }

  /** A cookie with an empty or 'null' value neither is stored nor disturbs an existing
      entry of its name; a storable one takes its value under its name. */
  lemma AbsorbOne(jar: Jar, header: string)
    ensures !Storable(CookiePair(header).1) ==> Absorb(jar, header) == jar
    ensures Storable(CookiePair(header).1) ==>
              Lookup(Absorb(jar, header), CookiePair(header).0) == Some(CookiePair(header).1)
              && forall other :: other != CookiePair(header).0 ==> Lookup(Absorb(jar, header), other) == Lookup(jar, other)
  {
    PutLookup(jar, CookiePair(header).0, CookiePair(header).1);
  }

  /** A single string is handled as the one-element list it is wrapped in. */
  lemma SingleHeaderIsList(jar: Jar, header: string)
    ensures AbsorbAll(jar, HeaderList(One(header))) == AbsorbAll(jar, HeaderList(Many([header])))
  {
    if header == "" {
      assert CookiePair(header) == ("", "");
      assert [header][..0] == [];
    }
  }

  /** `name=value` of one entry. */
  function PairText(c: (string, string)): string
  {
    c.0 + "=" + c.1
  }

  /** `getCookieString`: the entries as `name=value`, in jar order, joined by "; ". */
  function CookieString(jar: Jar): string
    decreases |jar|
  {
    if jar == [] then "" else if |jar| == 1 then PairText(jar[0]) else PairText(jar[0]) + "; " + CookieString(jar[1..])
  }

  /** An empty jar gives the empty string; a new entry adds "; name=value" at the end. */
  lemma {:induction false} CookieStringAppend(jar: Jar, c: (string, string))
    ensures CookieString([]) == ""
    ensures CookieString(jar + [c]) == if jar == [] then PairText(c) else CookieString(jar) + "; " + PairText(c)
    decreases |jar|
  {
    if |jar| >= 1 {
      assert (jar + [c])[1..] == jar[1..] + [c];
      CookieStringAppend(jar[1..], c);
    }
  }

  /** The cookie jar of `OpenAIAuth`; the device id, drawn at random, is not modelled. */
  class OpenAIAuth {
    var cookies: Jar

    constructor ()
      ensures cookies == []
    {
      cookies := [];
    }

    /** `parseCookies`: every header, in order, through the jar. */
    method ParseCookies(h: SetCookieHeaders)
      modifies this
      ensures cookies == AbsorbAll(old(cookies), HeaderList(h))
    {
      var headers := HeaderList(h);
      var i := 0;
      while i < |headers|
        invariant 0 <= i <= |headers|
        invariant cookies == AbsorbAll(old(cookies), headers[..i])
      {
        var (name, value) := CookiePair(headers[i]);
        if Storable(value) {
          cookies := Put(cookies, name, value);
        }
        assert headers[..i + 1][..i] == headers[..i];
        i := i + 1;
      }
      assert headers[..i] == headers;
    }

    /** `getCookieString`. */
    function GetCookieString(): string
      reads this
    {
      CookieString(cookies)
    }
  }

  /** The content computation of `updateEnvFile`: the first key's line is replaced
      (no `g` flag); without the key a new line is appended after a newline. */
  function UpdateEnvContent(content: string, token: string): string
  {
    if Contains(content, KEY) then ReplaceFirst(content, KEY + token)
    else content + "\n" + (KEY + token) + "\n"
  }

  /** With the key present, the first occurrence of the key then reads back the new
      token, and everything before that occurrence and after the end of its line is
      kept, any later line with the key included. */
  lemma UpdateEnvContentReplaces(content: string, token: string)
    requires Contains(content, KEY) && NoDollar(token) && NoLineTerminator(token)
    ensures var i := IndexOf(content, KEY).value;
            var r := UpdateEnvContent(content, token);
            r == content[..i] + (KEY + token) + content[MatchEnd(content, i)..] && FirstValue(r) == Some(token)
  {
    ReplaceFirstReadBack(content, token);
  }

  /** The key is looked for anywhere, not only at the start of a line: behind a `#` the
      commented line takes the token, and the live key line after it keeps its old
      value. */
  lemma CommentedKeyTakesToken()
    ensures var live := "\n" + KEY + "b";
            var c := "#" + (KEY + "a") + live;
            && IndexOf(c, KEY) == Some(1) && !StartsLine(c, 1)
            && UpdateEnvContent(c, "t") == "#" + (KEY + "t") + live
  {
    var live := "\n" + KEY + "b";
    var c := "#" + (KEY + "a") + live;
    assert !OccursAt("#" + KEY, KEY, 0) by {
      assert ("#" + KEY)[0] == '#';
    }
    assert live[0] == '\n';
    ReadBack("#", "a", live);
    assert c[1 + |KEY|..MatchEnd(c, 1)] == "a";
    UpdateEnvContentReplaces(c, "t");
    assert c[..1] == "#" && c[MatchEnd(c, 1)..] == live;
  }

  /** Without the key the old content is kept whole, the new line starts a line of its
      own, and the file then gives the key the new token. */
  lemma UpdateEnvContentAppends(content: string, token: string)
    requires !Contains(content, KEY) && NoLineTerminator(token)
    ensures var r := UpdateEnvContent(content, token);
            && r[..|content|] == content && StartsLine(r, |content| + 1)
            && OccursAt(r, KEY + token, |content| + 1) && FirstValue(r) == Some(token)
  {
    var r := content + "\n" + (KEY + token) + "\n";
    assert r == content + ['\n'] + (KEY + token) + "\n";
    AppendReadBack(content, '\n', token);
    assert r[..|content|] == content;
    assert r[|content| + 1..|content| + 1 + |KEY + token|] == KEY + token;
  }
}
