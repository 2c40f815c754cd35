/** The path a request is judged by (main.go, config/access_policies.go) and the path it
    is forwarded under (proxy/proxy.go), computed apart from each other. */
module ProxyPath {
  import opened Common
  import opened Text
  import opened RoutePolicy
  import opened UrlEncoding

  // ---- slashes -----------------------------------------------------------

  function SlashLeft(s: string): string {
    if s != "" && s[0] == '/' then SlashLeft(s[1..]) else s
  }

  function SlashRight(s: string): string {
    if s != "" && s[|s| - 1] == '/' then SlashRight(s[..|s| - 1]) else s
  }

  lemma {:induction false} SlashLeftCuts(s: string)
    ensures var r := SlashLeft(s);
            |r| <= |s| && r == s[|s| - |r|..] && (forall i :: 0 <= i < |s| - |r| ==> s[i] == '/') && (r == "" || r[0] != '/')
  {
    if s != "" && s[0] == '/' {
      SlashLeftCuts(s[1..]);
      var t := SlashLeft(s[1..]);
      assert SlashLeft(s) == t;
      hide SlashLeft;
      assert s[|s| - |t|..] == s[1..][|s| - 1 - |t|..];
      forall i | 1 <= i < |s| - |t| ensures s[i] == '/' {
        assert s[i] == s[1..][i - 1];
      }
    }
  }

  lemma {:induction false} SlashRightCuts(s: string)
    ensures var r := SlashRight(s);
            |r| <= |s| && r == s[..|r|] && (forall i :: |r| <= i < |s| ==> s[i] == '/') && (r == "" || r[|r| - 1] != '/')
  {
    if s != "" && s[|s| - 1] == '/' {
      var n := |s| - 1;
      SlashRightCuts(s[..n]);
      var t := SlashRight(s[..n]);
      assert SlashRight(s) == t;
      hide SlashRight;
      assert s[..|t|] == s[..n][..|t|];
      forall i | |t| <= i < n ensures s[i] == '/' {
        assert s[i] == s[..n][i];
      }
    }
  }

  function TrimPrefix(s: string, p: string): string {
    if HasPrefix(s, p) then s[|p|..] else s
  }

  // ---- the catch-all handler's split -------------------------------------

  /** The first segment and what follows its slash, if there is one. */
  function SplitPath(urlPath: string): (string, Option<string>) {
    var path := TrimPrefix(urlPath, "/");
    var k := IndexOf(path, '/');
    if k == |path| then (path, None) else (path[..k], Some(path[k + 1..]))
  }

  /** The path that audit records show and policies are asked about. */
  function RoutePath(urlPath: string): string {
    var (_, rest) := SplitPath(urlPath);
    if rest.Some? && Trim(rest.value) != "" then "/" + rest.value else "/"
  }

  /** What the policy rules compare their prefixes with. */
  function JudgedPath(urlPath: string): string {
    NormalizePath(RoutePath(urlPath))
  }

  // ---- the proxy's rewriting ---------------------------------------------

  /** The path and the raw path without the service's prefix. */
  function Rewrite(path: string, raw: string, name: string): (string, string) {
    Stripped("/" + SlashRight(SlashLeft(ToLower(name))), path, raw)
  }

  function Stripped(prefix: string, path: string, raw: string): (string, string) {
    if path == prefix || path == prefix + "/" then ("", "")
    else if HasPrefix(path, prefix + "/") then
      var next := "/" + SlashLeft(TrimPrefix(path, prefix));
      (next, if raw != "" && raw != prefix && raw != prefix + "/" && HasPrefix(raw, prefix + "/")
             then "/" + SlashLeft(TrimPrefix(raw, prefix)) else "")
    else (path, raw)
  }

  function Join(base: string, stripped: string): string {
    JoinTrimmed(Trim(base), stripped)
  }

  function JoinTrimmed(base: string, stripped: string): string {
    if base == "" || base == "/" then
      if stripped == "" then "/" else "/" + SlashLeft(stripped)
    else if stripped == "" || stripped == "/" then SlashRight(base)
    else SlashRight(base) + "/" + SlashLeft(stripped)
  }

  function ForwardedPath(urlPath: string, raw: string, name: string, base: string): string {
    Join(base, Rewrite(urlPath, raw, name).0)
  }

  // ---- the two agree -----------------------------------------------------

  /** A name that is in the catalogue and came out of the split. */
  predicate RoutableName(name: string) {
    name != "" && NormalizeName(name) == name && '/' !in name
  }

  lemma TrimOnlyShortens(s: string)
    ensures |Trim(s)| <= |s|
    ensures |Trim(s)| == |s| ==> Trim(s) == s
  {
    var before, after := TrimSplits(s);
    if |Trim(s)| == |s| {
      assert before == "" && after == "";
      assert "" + Trim(s) + "" == Trim(s);
    }
  }

  lemma NormalNameIsLower(name: string)
    requires NormalizeName(name) == name
    ensures ToLower(name) == name
  {
    hide Trim;
    TrimOnlyShortens(ToLower(name));
  }

  lemma PrefixOf(name: string)
    requires RoutableName(name)
    ensures SlashRight(SlashLeft(ToLower(name))) == name
  {
    NormalNameIsLower(name);
    assert name[0] in name && name[|name| - 1] in name;
  }

  lemma SplitWithoutRest(name: string)
    requires '/' !in name
    ensures SplitPath("/" + name) == (name, None)
  {
    assert ("/" + name)[1..] == name;
    assert IndexOf(name, '/') == |name|;
  }

  lemma SplitWithRest(name: string, rest: string)
    requires '/' !in name
    ensures SplitPath("/" + name + "/" + rest) == (name, Some(rest))
  {
    assert ("/" + name + "/" + rest)[1..] == name + "/" + rest;
    Cut(name, '/', rest);
    FirstAt(name + "/" + rest, '/', |name|);
  }

  lemma PrefixSplits(prefix: string, rest: string)
    ensures HasPrefix(prefix + "/" + rest, prefix + "/")
    ensures TrimPrefix(prefix + "/" + rest, prefix) == "/" + rest
    ensures prefix + "/" + rest == prefix + "/" <==> rest == ""
    ensures prefix + "/" + rest != prefix
  {
    var path := prefix + "/" + rest;
    assert path[..|prefix| + 1] == prefix + "/";
    assert path[..|prefix|] == prefix && path[|prefix|..] == "/" + rest;
    assert |path| == |prefix| + 1 + |rest|;
  }

  lemma SlashedLeft(rest: string)
    ensures SlashLeft("/" + rest) == SlashLeft(rest)
  {
    assert ("/" + rest)[1..] == rest;
  }

  /** What is forwarded, without the base: nothing at all, or one slash and the rest
      with its leading slashes dropped. */
  lemma RewriteParts(name: string, rest: string, raw: string)
    requires RoutableName(name)
    ensures Rewrite("/" + name, raw, name).0 == ""
    ensures Rewrite("/" + name + "/" + rest, raw, name).0 == if rest == "" then "" else "/" + SlashLeft(rest)
  {
    hide RoutableName, Stripped, SlashLeft, SlashRight, ToLower;
    PrefixOf(name);
    StrippedParts("/" + name, rest, raw);
  }

  lemma StrippedParts(prefix: string, rest: string, raw: string)
    ensures Stripped(prefix, prefix, raw).0 == ""
    ensures Stripped(prefix, prefix + "/" + rest, raw).0 == if rest == "" then "" else "/" + SlashLeft(rest)
  {
    hide HasPrefix, TrimPrefix;
    PrefixSplits(prefix, rest);
    SlashedLeft(rest);
  }

  lemma StrippedRaw(prefix: string, rest: string, rawRest: string)
    requires rest != "" && rawRest != ""
    ensures Stripped(prefix, prefix + "/" + rest, prefix + "/" + rawRest).1 == "/" + SlashLeft(rawRest)
  {
    hide HasPrefix, TrimPrefix;
    PrefixSplits(prefix, rest);
    PrefixSplits(prefix, rawRest);
    SlashedLeft(rawRest);
    assert prefix + "/" + rawRest != "";
  }

  lemma JudgedRest(name: string, rest: string)
    requires '/' !in name
    ensures JudgedPath("/" + name + "/" + rest) == if Trim(rest) == "" then "/" else "/" + TrimRight(rest)
  {
    hide SplitPath, NormalizePath, Trim, TrimRight;
    SplitWithRest(name, rest);
    if Trim(rest) != "" {
      TrimSlashed(rest);
    } else {
      NormalizeRoot();
    }
  }

  lemma NormalizeRoot()
    ensures NormalizePath("/") == "/"
  {
  }

  lemma TrimSlashed(rest: string)
    requires Trim(rest) != ""
    ensures NormalizePath("/" + rest) == "/" + TrimRight(rest)
  {
    hide Trim, TrimRight;
    TrimBehindSlash(rest);
    if TrimRight(rest) == "" {
      TrimRightEmpty(rest);
    }
    BehindSlash(TrimRight(rest));
  }

  lemma BehindSlash(v: string)
    ensures HasPrefix("/" + v, "/") && "/" + v != "" && "/" + v != "*"
  {
    assert ("/" + v)[..1] == "/" && |"/" + v| > 0 && ("/" + v)[0] == '/';
  }

  lemma TrimBehindSlash(rest: string)
    ensures Trim("/" + rest) == "/" + TrimRight(rest)
  {
    hide Trim, TrimRight, IsSpace, Trimmed, AllSpace;
    var v := TrimRight(rest);
    TrimRightCuts(rest);
    SlashedIsTrimmed(v);
    SlashInFront(rest, v);
    NothingBlank();
    TrimAround("", "/" + v, rest[|v|..]);
  }

  lemma NothingBlank()
    ensures AllSpace("")
  {
  }

  lemma SlashedIsTrimmed(v: string)
    requires v == "" || !IsSpace(v[|v| - 1])
    ensures Trimmed("/" + v)
  {
    var text := "/" + v;
    assert text[0] == '/' && (v == "" || text[|text| - 1] == v[|v| - 1]);
  }

  lemma SlashInFront(rest: string, v: string)
    requires |v| <= |rest| && v == rest[..|v|]
    ensures "/" + rest == "" + ("/" + v) + rest[|v|..]
  {
    assert rest == v + rest[|v|..];
  }

  lemma TrimRightEmpty(rest: string)
    requires TrimRight(rest) == ""
    ensures Trim(rest) == ""
  {
    TrimRightCuts(rest);
    assert rest[0..] == rest;
    TrimBlank(rest);
  }

  /** A text cut at the front equals the same text cut at the back only if neither cut
      takes anything: slashes are not blanks. */
  lemma CutsDiffer(rest: string)
    requires Trim(rest) != ""
    ensures SlashLeft(rest) == TrimRight(rest) <==> rest[0] != '/' && !IsSpace(rest[|rest| - 1])
  {
    hide Trim, IsSpace;
    if rest[0] == '/' {
      SlashedDiffer(rest);
    } else {
      TrimRightWhole(rest);
    }
  }

  lemma TrimRightWhole(s: string)
    requires s != ""
    ensures TrimRight(s) == s <==> !IsSpace(s[|s| - 1])
  {
    TrimRightCuts(s);
    hide IsSpace;
  }

  lemma SlashedDiffer(rest: string)
    requires rest != "" && rest[0] == '/'
    ensures SlashLeft(rest) != TrimRight(rest)
  {
    var a, b := SlashLeft(rest), TrimRight(rest);
    SlashLeftCuts(rest[1..]);
    TrimRightCuts(rest);
    assert a == SlashLeft(rest[1..]);
    var k := |rest| - |b|;
    var blanks := rest[|b|..];
    hide SlashLeft, TrimRight, IsSpace;
    if k > 0 {
      forall i | |b| <= i < |rest| ensures IsSpace(rest[i]) {
        assert rest[i] == blanks[i - |b|];
      }
      Periodic(rest, k);
      assert |a| == |b| ==> a == rest[k..] && b == rest[..|rest| - k];
    }
  }

  lemma {:induction false} Periodic(s: string, k: nat)
    requires 0 < k <= |s| && s[0] == '/'
    requires forall i :: |s| - k <= i < |s| ==> IsSpace(s[i])
    ensures s[k..] != s[..|s| - k]
  {
    if s[k..] == s[..|s| - k] {
      ShiftedSpaces(s, k, 0);
    }
  }

  lemma {:induction false} ShiftedSpaces(s: string, k: nat, i: nat)
    requires 0 < k <= |s| && i < |s| && s[k..] == s[..|s| - k]
    requires forall j :: |s| - k <= j < |s| ==> IsSpace(s[j])
    ensures IsSpace(s[i])
    decreases |s| - i
  {
    if i < |s| - k {
      ShiftedSpaces(s, k, i + k);
      assert s[k..][i] == s[i + k];
    }
  }

  /** The guard: what follows the service name has no leading slash, no trailing blank
      and is not blank; or there is nothing and the base path is empty. */
  predicate Agrees(rest: Option<string>, base: string) {
    if rest.None? || rest.value == "" then Trim(base) == "" || Trim(base) == "/"
    else Trim(rest.value) != "" && rest.value[0] != '/' && !IsSpace(rest.value[|rest.value| - 1])
  }

  /** JUDGED AND FORWARDED PATHS AGREE exactly under that guard: then the path the
      policy rules see is what is appended to the upstream's base path. */
  lemma ForwardedIsJudged(name: string, rest: Option<string>, raw: string, base: string)
    requires RoutableName(name)
    ensures var urlPath := "/" + name + (if rest.None? then "" else "/" + rest.value);
            ForwardedPath(urlPath, raw, name, base) == SlashRight(Trim(base)) + JudgedPath(urlPath)
            <==> Agrees(rest, base)
  {
    hide ForwardedPath, JudgedPath, Agrees, SlashRight, Trim, RoutableName;
    match rest
    case None =>
      assert "/" + name + "" == "/" + name;
      NoRestAgrees(name, raw, base);
    case Some(r) =>
      assert "/" + name + ("/" + r) == "/" + name + "/" + r;
      if r == "" {
        EmptyRestAgrees(name, raw, base, r);
      } else {
        RestAgrees(name, r, raw, base);
      }
  }

  lemma NoRestAgrees(name: string, raw: string, base: string)
    requires RoutableName(name)
    ensures ForwardedPath("/" + name, raw, name, base) == SlashRight(Trim(base)) + JudgedPath("/" + name)
            <==> Agrees(None, base)
  {
    hide SplitPath, Rewrite, NormalizeName, Trim, NormalizePath, Join;
    RewriteParts(name, "", raw);
    SplitWithoutRest(name);
    NormalizeRoot();
    JoinNothing(base);
    BareBase(Trim(base));
  }

  lemma JoinNothing(base: string)
    ensures Join(base, "") == if Trim(base) == "" || Trim(base) == "/" then "/" else SlashRight(Trim(base))
  {
    hide Trim;
  }

  lemma BareBase(base: string)
    ensures (if base == "" || base == "/" then "/" else SlashRight(base)) == SlashRight(base) + "/" <==> base == "" || base == "/"
  {
    assert SlashRight("/") == "" && SlashRight("") == "";
    assert |SlashRight(base) + "/"| == |SlashRight(base)| + 1;
  }

  lemma EmptyRestAgrees(name: string, raw: string, base: string, rest: string)
    requires RoutableName(name) && rest == ""
    ensures ForwardedPath("/" + name + "/" + rest, raw, name, base) == SlashRight(Trim(base)) + JudgedPath("/" + name + "/" + rest)
            <==> Agrees(Some(rest), base)
  {
    hide Rewrite, NormalizeName, Trim, JudgedPath, Join;
    RewriteParts(name, rest, raw);
    JudgedRest(name, rest);
    TrimTrimmed("");
    JoinNothing(base);
    BareBase(Trim(base));
  }

  lemma RestAgrees(name: string, rest: string, raw: string, base: string)
    requires RoutableName(name) && rest != ""
    ensures ForwardedPath("/" + name + "/" + rest, raw, name, base) == SlashRight(Trim(base)) + JudgedPath("/" + name + "/" + rest)
            <==> Agrees(Some(rest), base)
  {
    hide ForwardedPath, JudgedPath, Trim, IsSpace, TrimRight, SlashLeft, SlashRight;
    ForwardedRest(name, rest, raw, base);
    JudgedRest(name, rest);
    RestCases(SlashRight(Trim(base)), Trim(base) == "" || Trim(base) == "/", rest);
  }

  lemma ForwardedRest(name: string, rest: string, raw: string, base: string)
    requires RoutableName(name) && rest != ""
    ensures ForwardedPath("/" + name + "/" + rest, raw, name, base)
         == if SlashLeft(rest) == "" && Trim(base) != "" && Trim(base) != "/" then SlashRight(Trim(base))
            else SlashRight(Trim(base)) + "/" + SlashLeft(rest)
  {
    hide Rewrite, Trim, JoinTrimmed, SlashLeft, SlashRight;
    RewriteParts(name, rest, raw);
    JoinSlashed(Trim(base), rest);
  }

  /** The comparison that is left, whatever the base. */
  lemma RestCases(base: string, bare: bool, rest: string)
    requires rest != ""
    ensures (if SlashLeft(rest) == "" && !bare then base else base + "/" + SlashLeft(rest))
            == base + (if Trim(rest) == "" then "/" else "/" + TrimRight(rest))
            <==> Trim(rest) != "" && rest[0] != '/' && !IsSpace(rest[|rest| - 1])
  {
    hide Trim, IsSpace, TrimRight, SlashLeft;
    if Trim(rest) == "" {
      BlankHasNoSlash(rest);
      Longer(base, rest);
    } else {
      CutsDiffer(rest);
      if SlashLeft(rest) == "" && !bare {
        FirstIsSlash(rest);
        Longer(base, TrimRight(rest));
        Regrouped(base, TrimRight(rest));
      } else {
        SameBehind(base, SlashLeft(rest), TrimRight(rest));
      }
    }
  }

  lemma Regrouped(base: string, r: string)
    ensures base + ("/" + r) == base + "/" + r
  {
  }

  lemma SameBehind(base: string, x: string, y: string)
    ensures base + "/" + x == base + ("/" + y) <==> x == y
  {
    Regrouped(base, y);
    SameTail(base + "/", x, y);
  }

  lemma Longer(base: string, r: string)
    ensures base + "/" + r != base
    ensures r != "" ==> base + "/" + r != base + "/"
  {
    assert |base + "/" + r| == |base| + 1 + |r|;
  }

  lemma FirstIsSlash(rest: string)
    requires SlashLeft(rest) == "" && rest != ""
    ensures rest[0] == '/'
  {
  }

  lemma SameTail(a: string, x: string, y: string)
    ensures a + x == a + y <==> x == y
  {
    if a + x == a + y {
      assert x == (a + x)[|a|..] && y == (a + y)[|a|..];
    }
  }

  lemma BlankHasNoSlash(rest: string)
    requires Trim(rest) == ""
    ensures SlashLeft(rest) == rest
  {
    TrimBlank(rest);
  }

  lemma JoinSlashed(base: string, rest: string)
    ensures JoinTrimmed(base, "/" + SlashLeft(rest))
         == if SlashLeft(rest) == "" && base != "" && base != "/" then SlashRight(base)
            else SlashRight(base) + "/" + SlashLeft(rest)
  {
    var r := SlashLeft(rest);
    SlashedLeft(r);
    SlashLeftTwice(rest);
    if base == "" || base == "/" {
      RootBase();
      EmptyFront(SlashRight(base), r);
    } else {
      OneSlash(r);
    }
  }

  lemma EmptyFront(base: string, r: string)
    requires base == ""
    ensures base + "/" + r == "/" + r && "/" + r != ""
  {
  }

  lemma OneSlash(r: string)
    ensures "/" + r != "" && ("/" + r == "/" <==> r == "")
  {
    assert |"/" + r| == 1 + |r|;
  }

  lemma SlashLeftTwice(s: string)
    ensures SlashLeft(SlashLeft(s)) == SlashLeft(s)
  {
    SlashLeftCuts(s);
  }

  lemma RootBase()
    ensures SlashRight("/") == "" && SlashRight("") == ""
  {
  }

  // ---- what is sent ------------------------------------------------------

  /** The path on the wire: the joined raw path if it encodes the forwarded path, and the
      default encoding otherwise. No path at all is written as a slash. */
  function SentPath(urlPath: string, raw: string, name: string, base: string, baseEscaped: string): string
    requires Bytes(ForwardedPath(urlPath, raw, name, base))
  {
    var strippedRaw := Rewrite(urlPath, raw, name).1;
    OnWire(EscapedPath(ForwardedPath(urlPath, raw, name, base), if strippedRaw == "" then "" else Join(baseEscaped, strippedRaw)))
  }

  function OnWire(escaped: string): string {
    if escaped == "" then "/" else escaped
  }

  lemma ForwardedBytes(name: string, rest: Option<string>, raw: string, base: string)
    requires RoutableName(name) && Bytes(base) && (rest.Some? ==> Bytes(rest.value))
    ensures Bytes(ForwardedPath("/" + name + (if rest.None? then "" else "/" + rest.value), raw, name, base))
  {
    hide RoutableName, Trim, Rewrite, JoinTrimmed, Bytes, SlashLeft;
    TrimBytes(base);
    var r := if rest.None? then "" else rest.value;
    RewriteParts(name, r, raw);
    assert "/" + name + "" == "/" + name && "/" + name + ("/" + r) == "/" + name + "/" + r;
    SlashedBytes(r, rest);
    JoinBytes(Trim(base), if r == "" then "" else "/" + SlashLeft(r));
  }

  lemma SlashedBytes(r: string, rest: Option<string>)
    requires r == if rest.None? then "" else rest.value
    requires rest.Some? ==> Bytes(rest.value)
    ensures Bytes(if r == "" then "" else "/" + SlashLeft(r))
  {
    SlashLeftCuts(r);
  }

  lemma TrimBytes(s: string)
    requires Bytes(s)
    ensures Bytes(Trim(s))
  {
    var before, after := TrimSplits(s);
    hide Trim, AllSpace;
    PartBytes(before, Trim(s), after);
  }

  lemma PartBytes(a: string, b: string, c: string)
    requires Bytes(a + b + c)
    ensures Bytes(b)
  {
    assert forall i :: 0 <= i < |b| ==> (a + b + c)[|a| + i] == b[i];
  }

  lemma JoinBytes(base: string, stripped: string)
    requires Bytes(base) && Bytes(stripped)
    ensures Bytes(JoinTrimmed(base, stripped))
  {
    hide SlashLeft, SlashRight;
    SlashBytes(base);
    SlashBytes(stripped);
    ConcatBytes("/", SlashLeft(stripped));
    ConcatBytes(SlashRight(base) + "/", SlashLeft(stripped));
  }

  lemma SlashBytes(s: string)
    requires Bytes(s)
    ensures Bytes(SlashLeft(s)) && Bytes(SlashRight(s) + "/") && Bytes(SlashRight(s))
  {
    var l, r := SlashLeft(s), SlashRight(s);
    SlashLeftCuts(s);
    SlashRightCuts(s);
    hide SlashLeft, SlashRight;
    assert s == s[..|s| - |l|] + l + "" && s == "" + r + s[|r|..];
    PartBytes(s[..|s| - |l|], l, "");
    PartBytes("", r, s[|r|..]);
    ConcatBytes(r, "/");
  }

  lemma ConcatBytes(a: string, b: string)
    requires Bytes(a) && Bytes(b)
    ensures Bytes(a + b)
  {
  }

  lemma OnWireDecodes(escaped: string, path: string)
    requires Unescape(escaped) == Some(path)
    ensures Unescape(OnWire(escaped)) == Some(if path == "" then "/" else path)
  {
    UnescapePlain('/');
    UnescapedIsEmpty(escaped);
  }

  /** The guard on what is sent: a base path of slashes alone counts as none. */
  predicate SentAgrees(rest: Option<string>, base: string) {
    Agrees(rest, base) || ((rest.None? || rest.value == "") && SlashRight(Trim(base)) == "")
  }

  /** When no path at all is forwarded: the base path is slashes and so is the rest. */
  lemma NothingForwarded(name: string, rest: string, raw: string, base: string)
    requires RoutableName(name)
    requires ForwardedPath("/" + name + "/" + rest, raw, name, base) == ""
    ensures SlashRight(Trim(base)) == "" && SlashLeft(rest) == ""
  {
    hide RoutableName, Trim, SlashLeft, Rewrite, JoinTrimmed;
    RewriteParts(name, rest, raw);
    if rest == "" {
      JoinNothing(base);
      SlashLeftCuts(rest);
    } else {
      JoinSlashed(Trim(base), rest);
    }
  }

  lemma WithoutRestForwarded(name: string, raw: string, base: string)
    requires RoutableName(name)
    ensures ForwardedPath("/" + name, raw, name, base) == ForwardedPath("/" + name + "/" + "", raw, name, base)
    ensures JudgedPath("/" + name) == "/" == JudgedPath("/" + name + "/" + "")
  {
    hide SplitPath, NormalizePath, Trim, Rewrite, Join;
    RewriteParts(name, "", raw);
    SplitWithoutRest(name);
    NormalizeRoot();
    JudgedRest(name, "");
    TrimTrimmed("");
  }

  lemma SlashesAreJudged(name: string, rest: string)
    requires RoutableName(name) && SlashLeft(rest) == "" && rest != ""
    ensures JudgedPath("/" + name + "/" + rest) != "/"
  {
    hide JudgedPath, Trim, TrimRight, IsSpace;
    JudgedRest(name, rest);
    FirstIsSlash(rest);
    if Trim(rest) == "" {
      BlankHasNoSlash(rest);
    } else {
      NotBlankRight(rest);
    }
  }

  lemma NotBlankRight(rest: string)
    requires Trim(rest) != ""
    ensures TrimRight(rest) != "" && "/" + TrimRight(rest) != "/"
  {
    hide Trim, TrimRight;
    if TrimRight(rest) == "" {
      TrimRightEmpty(rest);
    }
    OneSlash(TrimRight(rest));
  }

  /** With no path forwarded, the slash that is sent is the judged path or it is not. */
  lemma SlashSent(name: string, rest: Option<string>, raw: string, base: string)
    requires RoutableName(name)
    ensures var urlPath := "/" + name + (if rest.None? then "" else "/" + rest.value);
            ForwardedPath(urlPath, raw, name, base) == "" ==>
              (SlashRight(Trim(base)) + JudgedPath(urlPath) == "/" <==> SentAgrees(rest, base))
  {
    hide ForwardedPath, JudgedPath, RoutableName, Trim, SlashRight, SlashLeft, Agrees;
    WithoutRestForwarded(name, raw, base);
    assert "/" + name + "" == "/" + name;
    var r := if rest.None? then "" else rest.value;
    assert "/" + name + ("/" + r) == "/" + name + "/" + r;
    if ForwardedPath("/" + name + "/" + r, raw, name, base) == "" {
      NothingForwarded(name, r, raw, base);
      EmptyBefore(SlashRight(Trim(base)), JudgedPath("/" + name + "/" + r));
      if r != "" {
        SlashesAreJudged(name, r);
        SlashesDisagree(r, base);
      }
    }
  }

  lemma EmptyBefore(empty: string, s: string)
    requires empty == ""
    ensures empty + s == s
  {
  }

  lemma SlashesDisagree(rest: string, base: string)
    requires SlashLeft(rest) == "" && rest != ""
    ensures !SentAgrees(Some(rest), base)
  {
    hide Trim, IsSpace, SlashRight;
    FirstIsSlash(rest);
  }

  /** With a path forwarded, the two guards say the same. */
  lemma SomethingSent(name: string, rest: Option<string>, raw: string, base: string)
    requires RoutableName(name)
    ensures var urlPath := "/" + name + (if rest.None? then "" else "/" + rest.value);
            ForwardedPath(urlPath, raw, name, base) != "" ==> (Agrees(rest, base) <==> SentAgrees(rest, base))
  {
    hide RoutableName, Trim, Rewrite, JoinTrimmed, IsSpace, SlashRight;
    if rest.None? || rest.value == "" {
      RewriteParts(name, "", raw);
      assert "/" + name + "" == "/" + name && "/" + name + ("/" + "") == "/" + name + "/" + "";
      JoinNothing(base);
    }
  }

  /** WHAT IS SENT IS WHAT WAS JUDGED. However the client encoded the path, what goes to
      the upstream stands for the base path with the judged path after it, exactly under
      the guard on the path. */
  lemma SentDecodesToJudged(name: string, rest: Option<string>, raw: string, base: string, baseEscaped: string)
    requires RoutableName(name) && Bytes(base) && (rest.Some? ==> Bytes(rest.value))
    ensures var urlPath := "/" + name + (if rest.None? then "" else "/" + rest.value);
            && Bytes(ForwardedPath(urlPath, raw, name, base))
            && (Unescape(SentPath(urlPath, raw, name, base, baseEscaped)) == Some(SlashRight(Trim(base)) + JudgedPath(urlPath))
                <==> SentAgrees(rest, base))
  {
    hide ForwardedPath, JudgedPath, Agrees, SentAgrees, RoutableName, Trim, SlashRight, Rewrite, Join, Bytes, EscapedPath, OnWire;
    ForwardedBytes(name, rest, raw, base);
    var urlPath := "/" + name + (if rest.None? then "" else "/" + rest.value);
    SentDecodes(urlPath, raw, name, base, baseEscaped);
    ForwardedIsJudged(name, rest, raw, base);
    SlashSent(name, rest, raw, base);
    SomethingSent(name, rest, raw, base);
  }

  lemma SentDecodes(urlPath: string, raw: string, name: string, base: string, baseEscaped: string)
    requires Bytes(ForwardedPath(urlPath, raw, name, base))
    ensures Unescape(SentPath(urlPath, raw, name, base, baseEscaped))
         == Some(if ForwardedPath(urlPath, raw, name, base) == "" then "/" else ForwardedPath(urlPath, raw, name, base))
  {
    hide ForwardedPath, Rewrite, Join, Bytes, EscapedPath, OnWire, Unescape;
    var strippedRaw := Rewrite(urlPath, raw, name).1;
    var joined := if strippedRaw == "" then "" else Join(baseEscaped, strippedRaw);
    EscapedPathDecodes(ForwardedPath(urlPath, raw, name, base), joined);
    OnWireDecodes(EscapedPath(ForwardedPath(urlPath, raw, name, base), joined), ForwardedPath(urlPath, raw, name, base));
  }

  /** THE CLIENT'S OWN ENCODING IS KEPT when it encodes the rest, starts with no slash and
      follows the plain service name: the upstream gets it character by character. */
  lemma RawIsSent(name: string, rest: string, rawRest: string, base: string, baseEscaped: string)
    requires RoutableName(name) && Bytes(base) && Bytes(rest) && rest != "" && rest[0] != '/' && rawRest != "" && rawRest[0] != '/'
    requires Unescape(rawRest) == Some(rest) && Unescape(SlashRight(Trim(baseEscaped))) == Some(SlashRight(Trim(base)))
    requires ValidEncoding(SlashRight(Trim(baseEscaped)) + "/" + rawRest)
    ensures Bytes(ForwardedPath("/" + name + "/" + rest, "/" + name + "/" + rawRest, name, base))
    ensures SentPath("/" + name + "/" + rest, "/" + name + "/" + rawRest, name, base, baseEscaped)
         == SlashRight(Trim(baseEscaped)) + "/" + rawRest
  {
    hide RoutableName, Trim, SlashRight, Bytes, ValidEncoding, Rewrite, JoinTrimmed, Unescape;
    var urlPath, raw := "/" + name + "/" + rest, "/" + name + "/" + rawRest;
    assert "/" + name + ("/" + rest) == urlPath;
    ForwardedBytes(name, Some(rest), raw, base);
    RewriteParts(name, rest, raw);
    RewriteRaw(name, rest, rawRest);
    NoLeadingSlash(rest);
    NoLeadingSlash(rawRest);
    JoinSlashed(Trim(base), rest);
    JoinSlashed(Trim(baseEscaped), rawRest);
    SlashDecodes(SlashRight(Trim(baseEscaped)), rawRest);
  }

  lemma NoLeadingSlash(s: string)
    requires s != "" && s[0] != '/'
    ensures SlashLeft(s) == s
  {
  }

  lemma SlashDecodes(a: string, b: string)
    requires Unescape(a).Some? && Unescape(b).Some?
    ensures Unescape(a + "/" + b) == Some(Unescape(a).value + "/" + Unescape(b).value)
  {
    hide Unescape;
    UnescapePlain('/');
    UnescapeJoin(a, "/");
    UnescapeJoin(a + "/", b);
  }

  lemma RewriteRaw(name: string, rest: string, rawRest: string)
    requires RoutableName(name) && rest != "" && rawRest != ""
    ensures Rewrite("/" + name + "/" + rest, "/" + name + "/" + rawRest, name).1 == "/" + SlashLeft(rawRest)
  {
    hide RoutableName, Stripped, SlashLeft, SlashRight, ToLower;
    PrefixOf(name);
    StrippedRaw("/" + name, rest, rawRest);
  }
}
