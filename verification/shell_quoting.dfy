/** The portal's copyable curl commands (static/js/portal-console.js), read back by the
    quoting rules of section 2.2 of the POSIX Shell Command Language. */
module ShellQuoting {
  import opened Common
  import opened Text
  import opened HeaderText

  // ---- printing ----------------------------------------------------------

  function SingleQuote(v: string): string {
    if v == "" then "" else (if v[0] == '\'' then "'\\''" else [v[0]]) + SingleQuote(v[1..])
  }

  predicate EscapedInDouble(c: char) {
    c == '"' || c == '\\' || c == '$' || c == '`'
  }

  function DoubleQuote(v: string): string {
    if v == "" then "" else (if EscapedInDouble(v[0]) then ['\\', v[0]] else [v[0]]) + DoubleQuote(v[1..])
  }

  function ShellArg(v: string): string {
    "'" + SingleQuote(v) + "'"
  }

  // ---- reading, as a shell does ------------------------------------------

  /** Characters that end a word or mean something else when they stand unquoted. */
  predicate Special(c: char) {
    || c == '|' || c == '&' || c == ';' || c == '<' || c == '>' || c == '(' || c == ')' || c == '$' || c == '`'
    || c == '\n' || c == '*' || c == '?' || c == '[' || c == '#' || c == '~' || c == '=' || c == '%'
  }

  /** Section 2.2.3: the text up to the closing quote, and what follows it. An
      expansion inside the quotes is not literal text, so it is refused. */
  function Double(s: string): (r: Option<(string, string)>)
    ensures r.Some? ==> |r.value.1| < |s|
  {
    if s == "" then None
    else if s[0] == '"' then Some(("", s[1..]))
    else if s[0] == '$' || s[0] == '`' then None
    else if s[0] == '\\' && |s| > 1 && (EscapedInDouble(s[1]) || s[1] == '\n') then
      Prepended(if s[1] == '\n' then "" else [s[1]], Double(s[2..]))
    else Prepended([s[0]], Double(s[1..]))
  }

  function Prepended(text: string, r: Option<(string, string)>): Option<(string, string)> {
    match r
    case None => None
    case Some((more, rest)) => Some((text + more, rest))
  }

  function Grown(word: Option<string>, more: string): Option<string> {
    Some(if word.None? then more else word.value + more)
  }

  function Listed(word: Option<string>, more: Option<seq<string>>): Option<seq<string>> {
    if word.None? || more.None? then more else Some([word.value] + more.value)
  }

  /** The words of a command line, or nothing if it is not a plain list of literal
      words. `word` is the word being read, if one has begun. */
  function Words(s: string, word: Option<string>): Option<seq<string>>
    decreases |s|
  {
    if s == "" then Listed(word, Some([]))
    else if s[0] == ' ' || s[0] == '\t' then Listed(word, Words(s[1..], None))
    else if s[0] == '\'' then
      var k := IndexOf(s[1..], '\'');
      if k == |s| - 1 then None else Words(s[1..][k + 1..], Grown(word, s[1..][..k]))
    else if s[0] == '"' then
      match Double(s[1..])
      case None => None
      case Some((text, rest)) => Words(rest, Grown(word, text))
    else if s[0] == '\\' then
      if |s| == 1 then None
      else if s[1] == '\n' then Words(s[2..], word)
      else Words(s[2..], Grown(word, [s[1]]))
    else if Special(s[0]) then None
    else Words(s[1..], Grown(word, [s[0]]))
  }

  function Split(s: string): Option<seq<string>> {
    Words(s, None)
  }

  // ---- double quotes -----------------------------------------------------

  /** DOUBLE QUOTES. Reading a printed text up to the closing quote gives it back. */
  lemma {:induction false} DoubleReadsBack(v: string, rest: string)
    ensures Double(DoubleQuote(v) + "\"" + rest) == Some((v, rest))
  {
    if v == "" {
      assert "" + "\"" + rest == "\"" + rest;
    } else {
      DoubleReadsBack(v[1..], rest);
      DoubleStep(v[0], DoubleQuote(v[1..]) + "\"" + rest);
      var first := if EscapedInDouble(v[0]) then ['\\', v[0]] else [v[0]];
      assert DoubleQuote(v) + "\"" + rest == first + (DoubleQuote(v[1..]) + "\"" + rest);
      assert [v[0]] + v[1..] == v;
    }
  }

  lemma DoubleStep(c: char, tail: string)
    ensures Double((if EscapedInDouble(c) then ['\\', c] else [c]) + tail) == Prepended([c], Double(tail))
  {
    var s := (if EscapedInDouble(c) then ['\\', c] else [c]) + tail;
    if EscapedInDouble(c) {
      assert s[2..] == tail;
    } else {
      assert s[1..] == tail;
    }
  }

  // ---- single quotes -----------------------------------------------------

  lemma {:induction false} SingleQuoteSplits(v: string)
    ensures var k := IndexOf(v, '\'');
            SingleQuote(v) == v[..k] + if k == |v| then "" else "'\\''" + SingleQuote(v[k + 1..])
  {
    if v != "" && v[0] != '\'' {
      SingleQuoteSplits(v[1..]);
      var j := IndexOf(v[1..], '\'');
      assert v[..j + 1] == [v[0]] + v[1..][..j];
      if j + 1 < |v| {
        assert v[1..][j + 1..] == v[j + 2..];
      }
    }
  }

  lemma QuotedStep(text: string, rest: string, word: Option<string>)
    requires '\'' !in text
    ensures Words("'" + text + "'" + rest, word) == Words(rest, Grown(word, text))
  {
    var s := "'" + text + "'" + rest;
    assert s[1..] == text + "'" + rest;
    Cut(text, '\'', rest);
    FirstAt(s[1..], '\'', |text|);
  }

  lemma EscapedStep(c: char, rest: string, word: Option<string>)
    requires c != '\n'
    ensures Words("\\" + [c] + rest, word) == Words(rest, Grown(word, [c]))
  {
    var s := "\\" + [c] + rest;
    assert s[0] == '\\' && s[1] == c && s[2..] == rest;
    assert Words(s, word) == Words(s[2..], Grown(word, [s[1]]));
  }

  /** SINGLE QUOTES. A printed argument reads back as the value, as part of one word. */
  lemma {:induction false} ArgReadsBack(v: string, rest: string, word: Option<string>)
    ensures Words(ShellArg(v) + rest, word) == Words(rest, Grown(word, v))
    decreases |v|
  {
    hide Words, Grown;
    SingleQuoteSplits(v);
    var k := IndexOf(v, '\'');
    if k == |v| {
      assert v[..k] == v && SingleQuote(v) == v;
      QuotedStep(v, rest, word);
    } else {
      var more := ShellArg(v[k + 1..]) + rest;
      assert ShellArg(v) + rest == "'" + v[..k] + "'" + ("\\" + "'" + more);
      QuotedStep(v[..k], "\\" + "'" + more, word);
      EscapedStep('\'', more, Grown(word, v[..k]));
      ArgReadsBack(v[k + 1..], rest, Grown(Grown(word, v[..k]), "'"));
      GrownTwice(word, v, k);
      assert ['\''] == "'";
    }
  }

  lemma GrownTwice(word: Option<string>, v: string, k: nat)
    requires k < |v| && v[k] == '\''
    ensures Grown(Grown(Grown(word, v[..k]), "'"), v[k + 1..]) == Grown(word, v)
  {
    assert v == v[..k] + "'" + v[k + 1..];
    if word.Some? {
      assert word.value + v[..k] + "'" + v[k + 1..] == word.value + v;
    }
  }

  // ---- whole commands ----------------------------------------------------

  predicate PlainChar(c: char) {
    !Special(c) && c != ' ' && c != '\t' && c != '\'' && c != '"' && c != '\\'
  }

  /** A word that needs no quoting. */
  predicate Plain(w: string) {
    w != "" && forall i :: 0 <= i < |w| ==> PlainChar(w[i])
  }

  /** Followed by a blank or the end, the text reads as this one word. */
  ghost predicate ReadsAs(part: string, w: string) {
    forall rest :: rest == "" || rest[0] == ' ' ==> Words(part + rest, None) == Words(rest, Some(w))
  }

  lemma PlainStep(c: char, rest: string, word: Option<string>)
    requires PlainChar(c)
    ensures Words([c] + rest, word) == Words(rest, Grown(word, [c]))
  {
    hide Special;
    assert ([c] + rest)[1..] == rest;
  }

  lemma {:induction false} PlainGrows(w: string, rest: string, word: Option<string>)
    requires forall i :: 0 <= i < |w| ==> PlainChar(w[i])
    ensures Words(w + rest, word) == if w == "" then Words(rest, word) else Words(rest, Grown(word, w))
  {
    hide PlainChar, Words, Grown;
    if w == "" {
      assert w + rest == rest;
    } else {
      PlainStep(w[0], w[1..] + rest, word);
      assert w + rest == [w[0]] + (w[1..] + rest);
      PlainGrows(w[1..], rest, Grown(word, [w[0]]));
      GrownStep(word, w);
    }
  }

  lemma GrownStep(word: Option<string>, w: string)
    requires w != ""
    ensures Grown(Grown(word, [w[0]]), w[1..]) == Grown(word, w)
    ensures w[1..] == "" ==> [w[0]] == w
  {
    assert [w[0]] + w[1..] == w;
    if word.Some? {
      assert word.value + [w[0]] + w[1..] == word.value + w;
    }
  }

  lemma PlainReads(w: string)
    requires Plain(w)
    ensures ReadsAs(w, w)
  {
    forall rest | rest == "" || rest[0] == ' ' ensures Words(w + rest, None) == Words(rest, Some(w)) {
      PlainGrows(w, rest, None);
    }
  }

  lemma ArgReads(v: string)
    ensures ReadsAs(ShellArg(v), v)
  {
    forall rest | rest == "" || rest[0] == ' ' ensures Words(ShellArg(v) + rest, None) == Words(rest, Some(v)) {
      ArgReadsBack(v, rest, None);
    }
  }

  function Join(parts: seq<string>): string {
    if |parts| == 0 then "" else if |parts| == 1 then parts[0] else parts[0] + " " + Join(parts[1..])
  }

  ghost predicate AllRead(parts: seq<string>, argv: seq<string>) {
    |parts| == |argv| && forall i :: 0 <= i < |parts| ==> ReadsAs(parts[i], argv[i])
  }

  lemma {:induction false} JoinReads(parts: seq<string>, argv: seq<string>)
    requires AllRead(parts, argv)
    ensures Split(Join(parts)) == Some(argv)
  {
    hide Words, ReadsAs;
    if |parts| == 1 {
      LastWord(parts[0], argv[0]);
      assert argv == [argv[0]];
    } else if |parts| > 1 {
      JoinReads(parts[1..], argv[1..]);
      NextWord(parts[0], argv[0], Join(parts[1..]));
      assert argv == [argv[0]] + argv[1..];
    } else {
      NoWords();
    }
  }

  lemma NoWords()
    ensures Split("") == Some([])
  {
  }

  lemma LastWord(part: string, w: string)
    requires ReadsAs(part, w)
    ensures Split(part) == Some([w])
  {
    assert part + "" == part;
    assert [w] + [] == [w];
    assert Words("", Some(w)) == Some([w]);
  }

  lemma NextWord(part: string, w: string, rest: string)
    requires ReadsAs(part, w)
    ensures Split(part + " " + rest) == Listed(Some(w), Split(rest))
  {
    var tail := " " + rest;
    assert part + " " + rest == part + tail;
    assert tail[0] == ' ' && tail[1..] == rest;
    assert Words(tail, Some(w)) == Listed(Some(w), Words(rest, None));
  }

  // ---- the curl command --------------------------------------------------

  predicate HasHeader(hs: seq<Header>, name: string) {
    exists i :: 0 <= i < |hs| && Named(hs[i], name)
  }

  const PLACEHOLDER := "apig0_key_shown_once_paste_yours_here"

  /** The typed headers, with the pasted key, or a placeholder for an assigned one,
      in front unless there is an Authorization header. */
  function ExportHeaders(headersText: string, token: string, keyAssigned: bool): seq<Header> {
    var typed, key := Parse(headersText), Trim(token);
    if HasHeader(typed, "Authorization") || (key == "" && !keyAssigned) then typed
    else [Header("Authorization", "Bearer " + if key == "" then PLACEHOLDER else key)] + typed
  }

  predicate SendsBody(httpMethod: string, body: string) {
    body != "" && httpMethod != "GET" && httpMethod != "DELETE"
  }

  function CommandHeaders(httpMethod: string, headers: seq<Header>, body: string): seq<Header> {
    if SendsBody(httpMethod, body) && !HasHeader(headers, "Content-Type") then
      headers + [Header("Content-Type", "application/json")]
    else headers
  }

  function HeaderArgs(hs: seq<Header>): (args: seq<string>)
    ensures |args| == 2 * |hs|
  {
    if hs == [] then [] else HeaderArgs(hs[..|hs| - 1]) + ["-H", Print(hs[|hs| - 1])]
  }

  /** THE INTENT: the argument list that curl is to receive. No quoting here. */
  function Argv(insecure: bool, httpMethod: string, headers: seq<Header>, body: string, url: string): seq<string> {
    ["curl"] + (if insecure then ["-k"] else []) + ["-X", httpMethod]
    + HeaderArgs(CommandHeaders(httpMethod, headers, Trim(body)))
    + (if SendsBody(httpMethod, Trim(body)) then ["--data", Trim(body)] else [])
    + [url]
  }

  method HasHeaderNamed(hs: seq<Header>, name: string) returns (found: bool)
    ensures found == HasHeader(hs, name)
  {
    hide Named;
    for i := 0 to |hs|
      invariant forall j :: 0 <= j < i ==> !Named(hs[j], name)
    {
      if Named(hs[i], name) {
        return true;
      }
    }
    return false;
  }

  lemma FixedWordsArePlain()
    ensures Plain("curl") && Plain("-k") && Plain("-X") && Plain("-H") && Plain("--data")
  {
  }

  lemma FixedWords()
    ensures ReadsAs("curl", "curl") && ReadsAs("-k", "-k") && ReadsAs("-X", "-X") && ReadsAs("-H", "-H")
    ensures ReadsAs("--data", "--data")
  {
    FixedWordsArePlain();
    hide ReadsAs, Plain;
    PlainReads("curl");
    PlainReads("-k");
    PlainReads("-X");
    PlainReads("-H");
    PlainReads("--data");
  }

  lemma AllReadPair(a: seq<string>, x: seq<string>, flag: string, v: string)
    requires AllRead(a, x) && ReadsAs(flag, flag)
    ensures AllRead(a + [flag, ShellArg(v)], x + [flag, v])
  {
    hide ReadsAs, ShellArg;
    ArgReads(v);
  }

  lemma AllReadNothing()
    ensures AllRead([], [])
  {
  }

  lemma AppendTwo(a: seq<string>, x: string, y: string)
    ensures a + [x] + [y] == a + [x, y]
  {
  }

  lemma AllReadOne(a: seq<string>, x: seq<string>, part: string, w: string)
    requires AllRead(a, x) && ReadsAs(part, w)
    ensures AllRead(a + [part], x + [w])
  {
    hide ReadsAs;
  }

  method AddContentType(httpMethod: string, exported: seq<Header>, body: string) returns (headers: seq<Header>)
    ensures headers == CommandHeaders(httpMethod, exported, body)
  {
    headers := exported;
    var typed := HasHeaderNamed(headers, "Content-Type");
    if body != "" && httpMethod != "GET" && httpMethod != "DELETE" && !typed {
      headers := headers + [Header("Content-Type", "application/json")];
    }
  }

  /** Prints the command part by part. Whatever the headers, the body and the URL
      hold, a shell splits it into exactly the intended arguments. */
  method BuildCommand(insecure: bool, httpMethod: string, headersText: string, token: string, keyAssigned: bool,
                      rawBody: string, url: string) returns (command: string)
    requires Plain(httpMethod)
    ensures Split(command) == Some(Argv(insecure, httpMethod, ExportHeaders(headersText, token, keyAssigned), rawBody, url))
  {
    hide ReadsAs, Plain, Print, ShellArg, Parse, Trim, Split, ExportHeaders, AllRead, CommandHeaders;
    FixedWords();
    AllReadNothing();
    PlainReads(httpMethod);
    var body := Trim(rawBody);
    var headers := ExportHeaders(headersText, token, keyAssigned);
    ghost var exported := headers;
    headers := AddContentType(httpMethod, headers, body);
    AllReadOne([], [], "curl", "curl");
    assert [] + ["curl"] == ["curl"];
    var parts := ["curl"];
    ghost var argv := ["curl"];
    if insecure {
      AllReadOne(parts, argv, "-k", "-k");
      parts := parts + ["-k"];
      argv := argv + ["-k"];
    }
    AllReadOne(parts, argv, "-X", "-X");
    AllReadOne(parts + ["-X"], argv + ["-X"], httpMethod, httpMethod);
    AppendTwo(parts, "-X", httpMethod);
    AppendTwo(argv, "-X", httpMethod);
    parts := parts + ["-X", httpMethod];
    argv := argv + ["-X", httpMethod];
    ghost var start := argv;
    for i := 0 to |headers|
      invariant AllRead(parts, argv) && argv == start + HeaderArgs(headers[..i])
    {
      var header := headers[i];
      AllReadPair(parts, argv, "-H", Print(header));
      parts := parts + ["-H", ShellArg(Print(header))];
      argv := argv + ["-H", Print(header)];
      assert headers[..i + 1][..i] == headers[..i];
    }
    assert headers[..|headers|] == headers;
    if body != "" && httpMethod != "GET" && httpMethod != "DELETE" {
      AllReadPair(parts, argv, "--data", body);
      parts := parts + ["--data", ShellArg(body)];
      argv := argv + ["--data", body];
    }
    ArgReads(url);
    AllReadOne(parts, argv, ShellArg(url), url);
    parts := parts + [ShellArg(url)];
    argv := argv + [url];
    JoinReads(parts, argv);
    assert argv == Argv(insecure, httpMethod, exported, rawBody, url);
    return Join(parts);
  }

  /** Every method the portal's menu offers needs no quoting. */
  lemma MenuMethodsArePlain(httpMethod: string)
    requires httpMethod in ["GET", "POST", "PUT", "PATCH", "DELETE"]
    ensures Plain(httpMethod)
  {
  }

  /** The argument of each header, read as a header line, is that header. */
  ghost predicate ReadBack(hs: seq<Header>) {
    forall i :: 0 <= i < |hs| ==> HeaderArgs(hs)[2 * i] == "-H" && Parse(HeaderArgs(hs)[2 * i + 1]) == [hs[i]]
  }

  predicate Survives(h: Header) {
    Parse(Print(h)) == [h]
  }

  lemma ReadBackEach(hs: seq<Header>)
    ensures ReadBack(hs) <==> forall i :: 0 <= i < |hs| ==> Survives(hs[i])
  {
    hide Parse, Print;
    forall i | 0 <= i < |hs| ensures HeaderArgs(hs)[2 * i] == "-H" && HeaderArgs(hs)[2 * i + 1] == Print(hs[i]) {
      HeaderArgsAt(hs, i);
    }
  }

  lemma {:induction false} HeaderArgsAt(hs: seq<Header>, i: nat)
    requires i < |hs|
    ensures HeaderArgs(hs)[2 * i] == "-H" && HeaderArgs(hs)[2 * i + 1] == Print(hs[i])
  {
    hide Print;
    var n := |hs| - 1;
    if i < n {
      HeaderArgsAt(hs[..n], i);
    }
  }

  lemma CleanSurvives(h: Header)
    requires Clean(h)
    ensures Survives(h)
  {
    hide Parse, Print, Clean, Format;
    ParseFormatOne(h);
    FormatOne(h);
  }

  lemma TypedSurvive(headersText: string)
    ensures forall i :: 0 <= i < |Parse(headersText)| ==> Survives(Parse(headersText)[i])
  {
    hide Parse, Clean, Survives;
    ParseClean(headersText);
    forall i | 0 <= i < |Parse(headersText)| ensures Survives(Parse(headersText)[i]) {
      CleanSurvives(Parse(headersText)[i]);
    }
  }

  /** A key with a line break inside does not come back as one header. */
  lemma KeySurvives(key: string)
    requires key != "" && Trimmed(key)
    ensures Survives(Header("Authorization", "Bearer " + key)) <==> '\n' !in key
  {
    var h := Header("Authorization", "Bearer " + key);
    assert h.value[0] == 'B' && h.value[|h.value| - 1] == key[|key| - 1];
    assert ':' !in h.name && '\n' !in h.name && '\n' !in "Bearer ";
    assert Trimmed(h.name) && Trimmed(h.value);
    hide Parse, Print, Trimmed, IsSpace;
    if '\n' in key {
      ParseClean(Print(h));
      assert '\n' in h.value;
      NotOnlyUnclean(Parse(Print(h)), h);
    } else {
      CleanSurvives(h);
    }
  }

  lemma FixedSurvive()
    ensures Survives(Header("Content-Type", "application/json"))
  {
    hide Survives;
    ContentTypeIsClean();
    CleanSurvives(Header("Content-Type", "application/json"));
  }

  lemma ContentTypeIsClean()
    ensures Clean(Header("Content-Type", "application/json"))
  {
  }

  lemma PlaceholderIsTrimmed()
    ensures Trimmed(PLACEHOLDER) && PLACEHOLDER != "" && '\n' !in PLACEHOLDER
  {
  }

  /** HEADERS SURVIVE. Of the headers in the command, typed or added, each comes back from
      its argument exactly if there is a typed Authorization header or the pasted key has
      no line break inside. */
  lemma HeaderArgsParse(httpMethod: string, headersText: string, token: string, keyAssigned: bool, body: string)
    ensures ReadBack(CommandHeaders(httpMethod, ExportHeaders(headersText, token, keyAssigned), body))
            <==> HasHeader(Parse(headersText), "Authorization") || '\n' !in Trim(token)
  {
    hide Survives, Parse, Trim, Trimmed, SendsBody;
    var typed, key := Parse(headersText), Trim(token);
    var exported := ExportHeaders(headersText, token, keyAssigned);
    var hs := CommandHeaders(httpMethod, exported, body);
    TypedSurvive(headersText);
    FixedSurvive();
    PlaceholderIsTrimmed();
    TrimIsTrimmed(token);
    ReadBackEach(hs);
    if exported != typed {
      KeySurvives(if key == "" then PLACEHOLDER else key);
      assert hs[0] == exported[0];
      assert forall i :: 1 <= i < |exported| ==> exported[i] == typed[i - 1];
    }
  }

  // ---- the snippet for AI keys -------------------------------------------

  const CONTINUED := " \\\n  "
  const BEARER := "Authorization: Bearer "
  const JSON_TYPE := "Content-Type: application/json"
  const BEFORE_MODEL := "{\"model\":\""
  const AFTER_MODEL := "\",\"messages\":" + "[{\"role\":" + "\"user\"," + "\"content\":" + "\"Say hello\"}]}"

  /** One command over four lines, all but the last continued. */
  function FourLines(path: string, auth: string, content: string, data: string): string {
    "curl " + (path + (CONTINUED + ("-H " + (auth + (CONTINUED + ("-H " + (content + (CONTINUED + ("-d " + data)))))))))
  }

  /** A key in double quotes, a model name in single quotes. */
  function AiCurlSnippet(base: string, token: string, model: string): string {
    FourLines(base + "/chat/completions", "\"" + BEARER + DoubleQuote(token) + "\"", "\"" + JSON_TYPE + "\"",
              "'" + BEFORE_MODEL + SingleQuote(model) + AFTER_MODEL + "'")
  }

  function AiArgv(base: string, token: string, model: string): seq<string> {
    ["curl", base + "/chat/completions", "-H", BEARER + token, "-H", JSON_TYPE, "-d", BEFORE_MODEL + model + AFTER_MODEL]
  }

  lemma {:induction false} DoubleQuotePlain(text: string, v: string)
    requires forall i :: 0 <= i < |text| ==> !EscapedInDouble(text[i])
    ensures DoubleQuote(text + v) == text + DoubleQuote(v)
  {
    hide EscapedInDouble;
    if text == "" {
      assert text + v == v;
    } else {
      assert (text + v)[1..] == text[1..] + v;
      DoubleQuotePlain(text[1..], v);
      assert text == [text[0]] + text[1..];
    }
  }

  lemma {:induction false} SingleQuoteJoin(a: string, b: string)
    ensures SingleQuote(a + b) == SingleQuote(a) + SingleQuote(b)
  {
    if a == "" {
      assert a + b == b;
    } else {
      assert (a + b)[1..] == a[1..] + b;
      SingleQuoteJoin(a[1..], b);
    }
  }

  lemma SingleQuotePlain(text: string)
    requires '\'' !in text
    ensures SingleQuote(text) == text
  {
    SingleQuoteSplits(text);
  }

  /** Wherever it stands at the start of a word, the text reads as this word so far. */
  ghost predicate Opens(part: string, w: string) {
    forall rest :: Words(part + rest, None) == Words(rest, Some(w))
  }

  lemma DoubleWord(v: string, rest: string)
    ensures Words("\"" + DoubleQuote(v) + "\"" + rest, None) == Words(rest, Some(v))
  {
    hide DoubleQuote;
    var s := "\"" + DoubleQuote(v) + "\"" + rest;
    DoubleReadsBack(v, rest);
    assert s[0] == '"' && s[1..] == DoubleQuote(v) + "\"" + rest;
  }

  lemma DoubleOpens(text: string, v: string)
    requires forall i :: 0 <= i < |text| ==> !EscapedInDouble(text[i])
    ensures Opens("\"" + text + DoubleQuote(v) + "\"", text + v)
  {
    DoubleQuotePlain(text, v);
    hide DoubleQuote, Words, EscapedInDouble;
    assert "\"" + text + DoubleQuote(v) + "\"" == "\"" + DoubleQuote(text + v) + "\"";
    forall rest ensures Words("\"" + DoubleQuote(text + v) + "\"" + rest, None) == Words(rest, Some(text + v)) {
      DoubleWord(text + v, rest);
    }
  }

  lemma SingleOpens(before: string, v: string, after: string)
    requires '\'' !in before && '\'' !in after
    ensures Opens("'" + before + SingleQuote(v) + after + "'", before + v + after)
  {
    QuoteAround(before, v, after);
    forall rest ensures Words("'" + before + SingleQuote(v) + after + "'" + rest, None) == Words(rest, Some(before + v + after)) {
      ArgReadsBack(before + v + after, rest, None);
    }
  }

  lemma QuoteAround(before: string, v: string, after: string)
    requires '\'' !in before && '\'' !in after
    ensures "'" + before + SingleQuote(v) + after + "'" == ShellArg(before + v + after)
  {
    hide SingleQuote;
    PrefixedSingle(before, v);
    SingleQuoteJoin(before + v, after);
    SingleQuotePlain(after);
    Around("'", before, SingleQuote(v), after);
  }

  lemma Around(quote: string, before: string, v: string, after: string)
    ensures quote + before + v + after + quote == quote + (before + v + after) + quote
  {
  }

  lemma PrefixedSingle(before: string, v: string)
    requires '\'' !in before
    ensures SingleQuote(before + v) == before + SingleQuote(v)
  {
    SingleQuoteJoin(before, v);
    SingleQuotePlain(before);
  }

  lemma PlainOpens(w: string)
    requires Plain(w)
    ensures Opens(w, w)
  {
    forall rest ensures Words(w + rest, None) == Words(rest, Some(w)) {
      PlainGrows(w, rest, None);
    }
  }

  lemma ThenBlank(part: string, w: string, rest: string)
    requires Opens(part, w)
    ensures Words(part + " " + rest, None) == Listed(Some(w), Words(rest, None))
  {
    var tail := " " + rest;
    assert part + " " + rest == part + tail;
    assert tail[0] == ' ' && tail[1..] == rest;
    assert Words(tail, Some(w)) == Listed(Some(w), Words(rest, None));
  }

  /** A backslash before the line break is removed with it, between two blanks. */
  lemma ThenContinued(part: string, w: string, rest: string)
    requires Opens(part, w)
    ensures Words(part + (CONTINUED + rest), None) == Listed(Some(w), Words(rest, None))
  {
    var s := CONTINUED + rest;
    assert s == " " + ("\\" + "\n" + ("  " + rest));
    var s1 := s[1..];
    assert s1[0] == '\\' && s1[1] == '\n' && s1[2..] == "  " + rest;
    var s3 := "  " + rest;
    assert s3[1..] == " " + rest && (" " + rest)[1..] == rest;
    assert Words(s3, None) == Words(s3[1..], None) == Words(rest, None);
    assert Words(s1, None) == Words(s3, None);
  }

  lemma FlagsOpen()
    ensures Opens("curl", "curl") && Opens("-H", "-H") && Opens("-d", "-d")
  {
    assert Plain("curl") && Plain("-H") && Plain("-d");
    hide Opens, Plain;
    PlainOpens("curl");
    PlainOpens("-H");
    PlainOpens("-d");
  }

  lemma Flag(flag: string, spaced: string, rest: string)
    requires Opens(flag, flag) && spaced == flag + " "
    ensures Words(spaced + rest, None) == Listed(Some(flag), Words(rest, None))
  {
    hide Words, Opens;
    ThenBlank(flag, flag, rest);
  }

  lemma FourLinesRead(path: string, auth: string, w1: string, content: string, w2: string, data: string, w3: string)
    requires Opens(path, path) && Opens(auth, w1) && Opens(content, w2) && Opens(data, w3)
    ensures Split(FourLines(path, auth, content, data)) == Some(["curl", path, "-H", w1, "-H", w2, "-d", w3])
  {
    FlagsOpen();
    LastOpen(data, w3);
    hide Words, Opens;
    var l4 := "-d " + data;
    Flag("-d", "-d ", data);
    ThenContinued(content, w2, l4);
    var l3 := "-H " + (content + (CONTINUED + l4));
    Flag("-H", "-H ", content + (CONTINUED + l4));
    ThenContinued(auth, w1, l3);
    var l2 := "-H " + (auth + (CONTINUED + l3));
    Flag("-H", "-H ", auth + (CONTINUED + l3));
    ThenContinued(path, path, l2);
    Flag("curl", "curl ", path + (CONTINUED + l2));
    assert ["curl"] + ([path] + (["-H"] + ([w1] + (["-H"] + ([w2] + (["-d"] + [w3]))))))
        == ["curl", path, "-H", w1, "-H", w2, "-d", w3];
  }

  lemma LastOpen(part: string, w: string)
    requires Opens(part, w)
    ensures Words(part, None) == Some([w])
  {
    assert part + "" == part && [w] + [] == [w];
    assert Words("", Some(w)) == Some([w]);
  }

  lemma NothingToEscape()
    ensures forall i :: 0 <= i < |BEARER| ==> !EscapedInDouble(BEARER[i])
    ensures forall i :: 0 <= i < |JSON_TYPE| ==> !EscapedInDouble(JSON_TYPE[i])
    ensures '\'' !in BEFORE_MODEL && '\'' !in AFTER_MODEL
  {
    assert '\'' !in "\",\"messages\":" && '\'' !in "[{\"role\":" && '\'' !in "\"user\",";
    assert '\'' !in "\"content\":" && '\'' !in "\"Say hello\"}]}";
  }

  lemma FixedDouble(text: string, nothing: string)
    requires nothing == "" && forall i :: 0 <= i < |text| ==> !EscapedInDouble(text[i])
    ensures Opens("\"" + text + "\"", text)
  {
    DoubleOpens(text, nothing);
    hide Opens;
    assert "\"" + text + DoubleQuote(nothing) + "\"" == "\"" + text + "\"";
    assert text + nothing == text;
  }

  /** THE AI SNIPPET reads back as the intended arguments for every key and model name. */
  lemma AiSnippetReadsBack(base: string, token: string, model: string)
    requires Plain(base + "/chat/completions")
    ensures Split(AiCurlSnippet(base, token, model)) == Some(AiArgv(base, token, model))
  {
    hide Split, Plain, Opens, FourLines;
    NothingToEscape();
    PlainOpens(base + "/chat/completions");
    DoubleOpens(BEARER, token);
    FixedDouble(JSON_TYPE, "");
    SingleOpens(BEFORE_MODEL, model, AFTER_MODEL);
    FourLinesRead(base + "/chat/completions", "\"" + BEARER + DoubleQuote(token) + "\"", BEARER + token,
                  "\"" + JSON_TYPE + "\"", JSON_TYPE,
                  "'" + BEFORE_MODEL + SingleQuote(model) + AFTER_MODEL + "'", BEFORE_MODEL + model + AFTER_MODEL);
  }
}
