/** How a path travels in a URL: percent escapes, and the choice between the client's own
    encoding and the default one, as Go's net/url makes it. Characters are bytes. */
module UrlEncoding {
  import opened Common

  predicate Bytes(s: string) {
    forall i :: 0 <= i < |s| ==> s[i] as int < 256
  }

  // ---- escapes -----------------------------------------------------------

  /** Characters that stand for themselves in the default encoding of a path. */
  predicate Plain(c: char) {
    || 'a' <= c <= 'z' || 'A' <= c <= 'Z' || '0' <= c <= '9'
    || c == '-' || c == '_' || c == '.' || c == '~'
    || c == '$' || c == '&' || c == '+' || c == ',' || c == '/' || c == ':' || c == ';' || c == '=' || c == '@'
  }

  function HexDigit(n: int): char
    requires 0 <= n < 16
  {
    if n < 10 then (n + 48) as char else (n + 55) as char
  }

  function HexValue(c: char): Option<int> {
    if '0' <= c <= '9' then Some(c as int - 48)
    else if 'A' <= c <= 'F' then Some(c as int - 55)
    else if 'a' <= c <= 'f' then Some(c as int - 87)
    else None
  }

  function EscapeChar(c: char): string
    requires c as int < 256
  {
    if Plain(c) then [c] else ['%', HexDigit(c as int / 16), HexDigit(c as int % 16)]
  }

  function Escape(s: string): string
    requires Bytes(s)
  {
    if s == "" then "" else EscapeChar(s[0]) + Escape(s[1..])
  }

  /** The first character a text stands for, and how much of the text it takes. */
  function First(s: string): (r: Option<(char, nat)>)
    requires s != ""
    ensures r.Some? ==> 1 <= r.value.1 <= |s|
  {
    if s[0] != '%' then Some((s[0], 1))
    else if |s| < 3 then None
    else
      match (HexValue(s[1]), HexValue(s[2]))
      case (Some(h), Some(l)) => assert 0 <= 16 * h + l < 256; Some(((16 * h + l) as char, 3))
      case _ => None
  }

  /** A percent sign without two hexadecimal digits after it makes the text invalid. */
  function Unescape(s: string): Option<string>
    decreases |s|
  {
    if s == "" then Some("")
    else
      match First(s)
      case None => None
      case Some((c, n)) =>
        match Unescape(s[n..])
        case None => None
        case Some(rest) => Some([c] + rest)
  }

  lemma HexRoundTrip(n: int)
    requires 0 <= n < 16
    ensures HexValue(HexDigit(n)) == Some(n)
  {
  }

  lemma FirstOfEscaped(c: char, rest: string)
    requires c as int < 256
    ensures First(EscapeChar(c) + rest) == Some((c, |EscapeChar(c)|))
    ensures (EscapeChar(c) + rest)[|EscapeChar(c)|..] == rest
  {
    HexRoundTrip(c as int / 16);
    HexRoundTrip(c as int % 16);
    if !Plain(c) {
      var s := EscapeChar(c) + rest;
      assert s[0] == '%' && s[1] == HexDigit(c as int / 16) && s[2] == HexDigit(c as int % 16);
      assert 16 * (c as int / 16) + c as int % 16 == c as int;
    }
  }

  /** ROUND TRIP: unescaping the default encoding gives the path back. */
  lemma {:induction false} UnescapeEscape(s: string)
    requires Bytes(s)
    ensures Unescape(Escape(s)) == Some(s)
  {
    hide First, EscapeChar;
    if s != "" {
      UnescapeEscape(s[1..]);
      FirstOfEscaped(s[0], Escape(s[1..]));
      EscapedIsNonempty(s[0]);
      assert [s[0]] + s[1..] == s;
    }
  }

  lemma EscapedIsNonempty(c: char)
    requires c as int < 256
    ensures EscapeChar(c) != ""
  {
  }

  lemma FirstOfJoined(a: string, b: string)
    requires a != "" && First(a).Some?
    ensures First(a + b) == First(a) && (a + b)[First(a).value.1..] == a[First(a).value.1..] + b
  {
  }

  /** Texts that are valid by themselves are unescaped part by part. */
  lemma {:induction false} UnescapeJoin(a: string, b: string)
    requires Unescape(a).Some? && Unescape(b).Some?
    ensures Unescape(a + b) == Some(Unescape(a).value + Unescape(b).value)
    decreases |a|
  {
    hide First;
    if a == "" {
      assert a + b == b && "" + Unescape(b).value == Unescape(b).value;
    } else {
      FirstOfJoined(a, b);
      var (c, n) := First(a).value;
      UnescapeJoin(a[n..], b);
      InFront(c, Unescape(a[n..]).value, Unescape(b).value);
    }
  }

  lemma InFront(c: char, a: string, b: string)
    ensures [c] + a + b == [c] + (a + b)
  {
  }

  lemma UnescapePlain(c: char)
    requires c != '%'
    ensures Unescape([c]) == Some([c])
  {
    var s := [c];
    assert First(s) == Some((c, 1));
    assert s[1..] == "" && [c] + "" == s;
    assert Unescape(s[1..]) == Some("");
  }

  lemma UnescapedIsEmpty(s: string)
    ensures Unescape(s) == Some("") <==> s == ""
  {
  }

  // ---- which encoding is sent --------------------------------------------

  /** Besides the plain ones: characters an encoding may leave as they are. */
  predicate Allowed(c: char) {
    Plain(c) || c == '!' || c == '\'' || c == '(' || c == ')' || c == '*' || c == '[' || c == ']' || c == '%'
  }

  predicate ValidEncoding(raw: string) {
    forall i :: 0 <= i < |raw| ==> Allowed(raw[i])
  }

  /** The raw path if it is a valid encoding of the path, and the default one otherwise. */
  function EscapedPath(path: string, raw: string): string
    requires Bytes(path)
  {
    if raw != "" && ValidEncoding(raw) && Unescape(raw) == Some(path) then raw
    else if path == "*" then "*"
    else Escape(path)
  }

  /** Whatever the raw path says, what is sent stands for the path. */
  lemma EscapedPathDecodes(path: string, raw: string)
    requires Bytes(path)
    ensures Unescape(EscapedPath(path, raw)) == Some(path)
  {
    hide ValidEncoding, Escape, Unescape;
    UnescapePlain('*');
    UnescapeEscape(path);
  }

  /** A visible character that neither ends a path nor must be escaped in one (section 3.3
      of RFC 3986; square brackets are let through as well). */
  predicate InPath(c: char) {
    '!' <= c <= '~' && c !in "?#\"<>\\^`{|}"
  }

  lemma AllowedInPath(c: char)
    ensures Allowed(c) ==> InPath(c)
  {
  }

  lemma EscapedCharAllowed(c: char)
    requires c as int < 256
    ensures forall i :: 0 <= i < |EscapeChar(c)| ==> Allowed(EscapeChar(c)[i])
  {
  }

  lemma {:induction false} EscapedIsValid(s: string)
    requires Bytes(s)
    ensures ValidEncoding(Escape(s))
  {
    hide Allowed, EscapeChar;
    if s != "" {
      EscapedCharAllowed(s[0]);
      EscapedIsValid(s[1..]);
    }
  }

  /** WHAT IS SENT IS A PATH: no question mark, no hash sign, no blank, and nothing else that
      would end it, whatever characters the path has and whatever the client sent. */
  lemma SentIsPath(path: string, raw: string)
    requires Bytes(path)
    ensures forall i :: 0 <= i < |EscapedPath(path, raw)| ==> InPath(EscapedPath(path, raw)[i])
  {
    hide Allowed, Escape, Unescape, InPath;
    EscapedIsValid(path);
    StarAllowed();
    var sent := EscapedPath(path, raw);
    assert ValidEncoding(sent);
    forall i | 0 <= i < |sent| ensures InPath(sent[i]) {
      AllowedInPath(sent[i]);
    }
  }

  lemma StarAllowed()
    ensures ValidEncoding("*")
  {
  }
}
