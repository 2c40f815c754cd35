/** Request history in the portal (static/js/portal-console.js): what is kept of a
    request, and the bounded most-recent-first list it goes into. */
module PortalHistory {
  import opened Text
  import opened HeaderText

  const HISTORY_LIMIT := 20

  /** `saved` is the number of headers kept, which the preview text shows. */
  datatype Entry = Entry(ts: int, service: string, httpMethod: string, path: string, body: string,
                         headersText: string, insecure: bool, title: string, saved: nat)

  datatype Request = Request(ts: int, service: string, httpMethod: string, path: string, headersText: string, insecure: bool)

  function NormalizedPath(raw: string): string {
    var p := Trim(raw);
    if p == "" then "/" else if HasPrefix(p, "/") then p else "/" + p
  }

  // ---- the headers that are kept -----------------------------------------

  predicate Sensitive(h: Header) {
    ToLower(h.name) in ["authorization", "proxy-authorization", "x-api-key", "cookie", "set-cookie"]
  }

  function Kept(hs: seq<Header>): seq<Header> {
    if hs == [] then [] else (if Sensitive(hs[0]) then [] else [hs[0]]) + Kept(hs[1..])
  }

  function SafeHeaders(raw: string): string {
    Format(Kept(Parse(raw)))
  }

  lemma {:induction false} KeptMembers(hs: seq<Header>)
    ensures forall h :: h in Kept(hs) <==> h in hs && !Sensitive(h)
  {
    hide Sensitive;
    if hs != [] {
      KeptMembers(hs[1..]);
      assert hs == [hs[0]] + hs[1..];
    }
  }

  /** A header that carries a credential, whatever the case of its name. */
  predicate Credential(name: string) {
    || ToLower(name) == "authorization" || ToLower(name) == "proxy-authorization"
    || ToLower(name) == "x-api-key" || ToLower(name) == "cookie" || ToLower(name) == "set-cookie"
  }

  lemma SensitiveIsCredential(h: Header)
    ensures Sensitive(h) <==> Credential(h.name)
  {
    var five := ["authorization", "proxy-authorization", "x-api-key", "cookie", "set-cookie"];
    assert five[0] in five && five[1] in five && five[2] in five && five[3] in five && five[4] in five;
  }

  /** The saved text parses to exactly the headers that carry no credential, in order. */
  lemma SafeHeadersParse(raw: string)
    ensures Parse(SafeHeaders(raw)) == Kept(Parse(raw))
    ensures forall h :: h in Parse(SafeHeaders(raw)) <==> h in Parse(raw) && !Credential(h.name)
  {
    hide Parse, Clean, Sensitive, Credential;
    var hs := Parse(raw);
    ParseClean(raw);
    KeptMembers(hs);
    forall h ensures Sensitive(h) <==> Credential(h.name) {
      SensitiveIsCredential(h);
    }
    forall i | 0 <= i < |Kept(hs)| ensures Clean(Kept(hs)[i]) {
      assert Kept(hs)[i] in Kept(hs);
    }
    ParseFormat(Kept(hs));
  }

  // ---- the list ----------------------------------------------------------

  function MakeEntry(r: Request): Entry {
    var path, headersText := NormalizedPath(r.path), SafeHeaders(r.headersText);
    Entry(r.ts, r.service, r.httpMethod, path, "", headersText, r.insecure,
          r.httpMethod + " " + r.service + path, |Parse(headersText)|)
  }

  function Key(e: Entry): string {
    e.title + "|" + e.headersText + "|" + e.body + "|" + (if e.insecure then "1" else "0")
  }

  function WithoutKey(history: seq<Entry>, key: string): seq<Entry> {
    if history == [] then []
    else (if Key(history[0]) == key then [] else [history[0]]) + WithoutKey(history[1..], key)
  }

  function Take(n: nat, history: seq<Entry>): seq<Entry> {
    if |history| <= n then history else history[..n]
  }

  /** One recording, as the code does it. */
  function Pushed(history: seq<Entry>, e: Entry): seq<Entry> {
    Take(HISTORY_LIMIT, [e] + WithoutKey(history, Key(e)))
  }

  /** The history after a run of recordings; a request without a service leaves it. */
  function HistoryAfter(run: seq<Request>): seq<Entry> {
    if run == [] then []
    else
      var n := |run| - 1;
      if run[n].service == "" then HistoryAfter(run[..n]) else Pushed(HistoryAfter(run[..n]), MakeEntry(run[n]))
  }

  /** The simple form, with no bound: every recording, the latest of each key,
      newest first. */
  function Recency(run: seq<Request>): seq<Entry> {
    if run == [] then []
    else
      var n, rest := |run| - 1, Recency(run[..|run| - 1]);
      if run[n].service == "" then rest
      else [MakeEntry(run[n])] + WithoutKey(rest, Key(MakeEntry(run[n])))
  }

  ghost predicate DistinctKeys(history: seq<Entry>) {
    forall i, j :: 0 <= i < j < |history| ==> Key(history[i]) != Key(history[j])
  }

  lemma {:induction false} WithoutKeyMembers(history: seq<Entry>, key: string)
    ensures forall e :: e in WithoutKey(history, key) <==> e in history && Key(e) != key
    ensures (forall e :: e in history ==> Key(e) != key) ==> WithoutKey(history, key) == history
    ensures DistinctKeys(history) ==> DistinctKeys(WithoutKey(history, key))
  {
    hide Key;
    if history != [] {
      var tail := WithoutKey(history[1..], key);
      WithoutKeyMembers(history[1..], key);
      assert history == [history[0]] + history[1..];
      if DistinctKeys(history) {
        forall i | 0 <= i < |tail| ensures Key(tail[i]) != Key(history[0]) {
          assert tail[i] in tail;
        }
      }
    }
  }

  lemma {:induction false} TakeWithout(history: seq<Entry>, key: string, n: nat)
    requires DistinctKeys(history)
    ensures Take(n, WithoutKey(history, key)) == Take(n, WithoutKey(Take(n + 1, history), key))
  {
    hide Key;
    if history != [] && |history| > n + 1 {
      var head, tail := history[0], history[1..];
      assert Take(n + 1, history) == [head] + tail[..n];
      assert ([head] + tail[..n])[1..] == tail[..n];
      if Key(head) == key {
        WithoutKeyMembers(tail, key);
        WithoutKeyMembers(tail[..n], key);
      } else if n > 0 {
        TakeWithout(tail, key, n - 1);
        TakeHead(head, WithoutKey(tail, key), n);
        TakeHead(head, WithoutKey(tail[..n], key), n);
      }
    }
  }

  lemma TakeHead(head: Entry, tail: seq<Entry>, n: nat)
    requires n > 0
    ensures Take(n, [head] + tail) == [head] + Take(n - 1, tail)
  {
  }

  lemma {:induction false} RecencyDistinct(run: seq<Request>)
    ensures DistinctKeys(Recency(run))
  {
    hide Key, MakeEntry;
    if run != [] {
      var n := |run| - 1;
      RecencyDistinct(run[..n]);
      WithoutKeyMembers(Recency(run[..n]), Key(MakeEntry(run[n])));
      NewHead(MakeEntry(run[n]), WithoutKey(Recency(run[..n]), Key(MakeEntry(run[n]))));
    }
  }

  lemma NewHead(e: Entry, tail: seq<Entry>)
    requires DistinctKeys(tail)
    ensures (forall x :: x in tail ==> Key(x) != Key(e)) ==> DistinctKeys([e] + tail)
  {
    hide Key;
  }

  /** THE BOUND LOSES NOTHING ELSE. The bounded history is the start of the unbounded
      one, however recordings repeat. */
  lemma {:induction false} HistoryIsRecency(run: seq<Request>)
    ensures HistoryAfter(run) == Take(HISTORY_LIMIT, Recency(run))
  {
    hide Key, MakeEntry, DistinctKeys;
    if run != [] {
      var n := |run| - 1;
      var rest, e := Recency(run[..n]), MakeEntry(run[n]);
      HistoryIsRecency(run[..n]);
      RecencyDistinct(run[..n]);
      TakeWithout(rest, Key(e), HISTORY_LIMIT - 1);
      TakeHead(e, WithoutKey(rest, Key(e)), HISTORY_LIMIT);
      TakeHead(e, WithoutKey(Take(HISTORY_LIMIT, rest), Key(e)), HISTORY_LIMIT);
    }
  }

  ghost predicate LastOfKey(run: seq<Request>, i: nat)
    requires i < |run|
  {
    && run[i].service != ""
    && forall j :: i < j < |run| && run[j].service != "" ==> Key(MakeEntry(run[j])) != Key(MakeEntry(run[i]))
  }

  lemma LastOfKeyStep(run: seq<Request>, i: nat)
    requires i < |run| - 1
    ensures LastOfKey(run, i) <==>
              && LastOfKey(run[..|run| - 1], i)
              && (run[|run| - 1].service == "" || Key(MakeEntry(run[|run| - 1])) != Key(MakeEntry(run[i])))
  {
    hide Key, MakeEntry;
  }

  lemma NewestIsLast(run: seq<Request>)
    requires run != []
    ensures LastOfKey(run, |run| - 1) <==> run[|run| - 1].service != ""
  {
    hide Key, MakeEntry;
  }

  ghost predicate LastRecording(run: seq<Request>, e: Entry) {
    exists i :: 0 <= i < |run| && LastOfKey(run, i) && MakeEntry(run[i]) == e
  }

  /** An entry is in the unbounded list exactly when it is the last recording of its key. */
  lemma {:induction false} RecencyMembers(run: seq<Request>)
    ensures forall e :: e in Recency(run) <==> LastRecording(run, e)
  {
    hide Key, MakeEntry, LastRecording, LastOfKey;
    if run != [] {
      var before, last := run[..|run| - 1], run[|run| - 1];
      assert run == before + [last];
      RecencyMembers(before);
      forall e ensures e in Recency(run) <==> LastRecording(run, e) {
        if e in Recency(run) {
          MemberIsLast(before, last, e);
        }
        if LastRecording(run, e) {
          LastIsMember(before, last, e);
        }
      }
    } else {
      NothingRecorded(run);
    }
  }

  lemma NothingRecorded(run: seq<Request>)
    ensures run == [] ==> forall e :: !LastRecording(run, e)
  {
  }

  /** Recording once more: what is in the list then. */
  lemma RecencyStep(before: seq<Request>, last: Request, e: Entry)
    ensures e in Recency(before + [last]) <==>
              if last.service == "" then e in Recency(before)
              else e == MakeEntry(last) || (e in Recency(before) && Key(e) != Key(MakeEntry(last)))
  {
    hide Key, MakeEntry, DistinctKeys;
    assert (before + [last])[..|before|] == before;
    WithoutKeyMembers(Recency(before), Key(MakeEntry(last)));
  }

  lemma EarlierIsLast(before: seq<Request>, last: Request, i: nat)
    requires i < |before|
    ensures (before + [last])[i] == before[i]
    ensures LastOfKey(before + [last], i) <==>
              LastOfKey(before, i) && (last.service == "" || Key(MakeEntry(last)) != Key(MakeEntry(before[i])))
  {
    hide LastOfKey;
    assert (before + [last])[..|before|] == before;
    LastOfKeyStep(before + [last], i);
  }

  lemma MemberIsLast(before: seq<Request>, last: Request, e: Entry)
    requires e in Recency(before + [last]) && (e in Recency(before) ==> LastRecording(before, e))
    ensures LastRecording(before + [last], e)
  {
    hide Key, MakeEntry, LastOfKey, Recency;
    RecencyStep(before, last, e);
    NewestIsLast(before + [last]);
    assert (before + [last])[|before|] == last;
    if e in Recency(before) {
      var i :| 0 <= i < |before| && LastOfKey(before, i) && MakeEntry(before[i]) == e;
      EarlierIsLast(before, last, i);
    }
  }

  lemma LastIsMember(before: seq<Request>, last: Request, e: Entry)
    requires LastRecording(before + [last], e) && (LastRecording(before, e) ==> e in Recency(before))
    ensures e in Recency(before + [last])
  {
    hide Key, MakeEntry, LastOfKey, Recency;
    RecencyStep(before, last, e);
    NewestIsLast(before + [last]);
    var i :| 0 <= i < |before + [last]| && LastOfKey(before + [last], i) && MakeEntry((before + [last])[i]) == e;
    if i < |before| {
      EarlierIsLast(before, last, i);
    }
  }

  lemma {:induction false} HistoryEntries(run: seq<Request>)
    ensures forall e :: e in HistoryAfter(run) ==>
              exists i :: 0 <= i < |run| && run[i].service != "" && MakeEntry(run[i]) == e
  {
    hide Key, MakeEntry;
    if run != [] {
      var n := |run| - 1;
      HistoryEntries(run[..n]);
      var rest, top := HistoryAfter(run[..n]), MakeEntry(run[n]);
      WithoutKeyMembers(rest, Key(top));
      forall e | e in HistoryAfter(run)
        ensures exists i :: 0 <= i < |run| && run[i].service != "" && MakeEntry(run[i]) == e
      {
        if e in rest {
          var i :| 0 <= i < n && run[..n][i].service != "" && MakeEntry(run[..n][i]) == e;
          assert run[i].service != "" && MakeEntry(run[i]) == e;
        } else {
          assert MakeEntry(run[n]) == e;
        }
      }
    }
  }

  /** An entry shows the request it was made of: without its body, with its path under
      a slash, and with the headers that carry no credential. */
  ghost predicate Shows(e: Entry, r: Request) {
    && e.ts == r.ts && e.service == r.service && e.httpMethod == r.httpMethod && e.insecure == r.insecure && e.body == ""
    && HasPrefix(e.path, "/") && (e.path == Trim(r.path) || e.path == "/" + Trim(r.path))
    && e.title == r.httpMethod + " " + r.service + e.path
    && (forall h :: h in Parse(e.headersText) <==> h in Parse(r.headersText) && !Credential(h.name))
    && e.saved == |Parse(e.headersText)|
  }

  lemma EntryShows(r: Request)
    ensures Shows(MakeEntry(r), r)
  {
    hide Parse, SafeHeaders, Credential, Trim;
    SafeHeadersParse(r.headersText);
  }

  /** HISTORY IS SAFE. In every run the entries have distinct keys, number at most 20,
      and each shows a request of the run that named a service: no body and no header
      with a credential. */
  lemma HistoryIsSafe(run: seq<Request>)
    ensures |HistoryAfter(run)| <= 20 && DistinctKeys(HistoryAfter(run))
    ensures forall e :: e in HistoryAfter(run) ==> e.service != "" && exists r :: r in run && Shows(e, r)
  {
    hide Key, MakeEntry, HistoryAfter, Recency, Parse, Credential, Trim;
    RecencyDistinct(run);
    HistoryIsRecency(run);
    HistoryEntries(run);
    forall e | e in HistoryAfter(run) ensures e.service != "" && exists r :: r in run && Shows(e, r) {
      var i :| 0 <= i < |run| && run[i].service != "" && MakeEntry(run[i]) == e;
      EntryShows(run[i]);
    }
  }

  // ---- the portal's state ------------------------------------------------

  /** The list that the upsert has built when it has looked at `i` headers. */
  function UpsertedSoFar(headers: seq<Header>, target: string, value: string, i: nat): seq<Header>
    requires i <= |headers|
  {
    var k := FirstNamed(headers, target);
    if k < i then headers[..k] + [Header(target, value)] + Without(headers[k..i], target) else headers[..i]
  }

  lemma UpsertedAtStart(headers: seq<Header>, target: string, value: string)
    ensures UpsertedSoFar(headers, target, value, 0) == []
  {
  }

  lemma WithoutSnoc(headers: seq<Header>, last: Header, target: string)
    ensures !Named(last, target) ==> Without(headers + [last], target) == Without(headers, target) + [last]
    ensures Named(last, target) ==> Without(headers + [last], target) == Without(headers, target)
  {
    hide Named;
    assert (headers + [last])[..|headers|] == headers;
  }

  lemma UpsertedStep(headers: seq<Header>, target: string, value: string, i: nat)
    requires i < |headers|
    ensures FirstNamed(headers, target) == i ==> Named(headers[i], target)
    ensures Named(headers[i], target) ==> FirstNamed(headers, target) <= i
    ensures !Named(headers[i], target) ==>
              UpsertedSoFar(headers, target, value, i + 1) == UpsertedSoFar(headers, target, value, i) + [headers[i]]
    ensures Named(headers[i], target) ==>
              UpsertedSoFar(headers, target, value, i + 1)
              == if FirstNamed(headers, target) < i then UpsertedSoFar(headers, target, value, i)
                 else UpsertedSoFar(headers, target, value, i) + [Header(target, value)]
  {
    hide Named, UpsertedSoFar, FirstNamed;
    if FirstNamed(headers, target) < i {
      StepBehind(headers, target, value, i);
    } else {
      StepAhead(headers, target, value, i);
    }
  }

  lemma StepBehind(headers: seq<Header>, target: string, value: string, i: nat)
    requires FirstNamed(headers, target) < i < |headers|
    ensures UpsertedSoFar(headers, target, value, i + 1)
         == if Named(headers[i], target) then UpsertedSoFar(headers, target, value, i)
            else UpsertedSoFar(headers, target, value, i) + [headers[i]]
  {
    hide Named, Without, FirstNamed;
    var k := FirstNamed(headers, target);
    assert headers[k..i + 1] == headers[k..i] + [headers[i]];
    WithoutSnoc(headers[k..i], headers[i], target);
    AppendToBoth(headers[..k] + [Header(target, value)], Without(headers[k..i], target), headers[i]);
  }

  lemma StepAhead(headers: seq<Header>, target: string, value: string, i: nat)
    requires i < |headers| && i <= FirstNamed(headers, target)
    ensures Named(headers[i], target) <==> i == FirstNamed(headers, target)
    ensures UpsertedSoFar(headers, target, value, i + 1)
         == UpsertedSoFar(headers, target, value, i) + [if Named(headers[i], target) then Header(target, value) else headers[i]]
  {
    hide Named, Without, FirstNamed;
    if i == FirstNamed(headers, target) {
      assert headers[i..i + 1] == [] + [headers[i]];
      WithoutSnoc([], headers[i], target);
      NothingLeft(headers[..i] + [Header(target, value)], target);
    } else {
      assert headers[..i + 1] == headers[..i] + [headers[i]];
    }
  }

  lemma AppendToBoth(a: seq<Header>, b: seq<Header>, h: Header)
    ensures a + (b + [h]) == a + b + [h]
  {
  }

  lemma NothingLeft(a: seq<Header>, target: string)
    ensures Without([], target) == [] && a + Without([], target) == a
  {
  }

  lemma UpsertedAtEnd(headers: seq<Header>, target: string, value: string)
    ensures Upserted(headers, target, value)
         == if FirstNamed(headers, target) < |headers| then UpsertedSoFar(headers, target, value, |headers|)
            else UpsertedSoFar(headers, target, value, |headers|) + [Header(target, value)]
  {
    hide Named, FirstNamed;
    var k := FirstNamed(headers, target);
    assert headers[k..|headers|] == headers[k..];
    if k == |headers| {
      assert headers[k..] == [];
      NothingLeft(headers[..k] + [Header(target, value)], target);
    }
  }

  class Portal {
    var headersText: string
    var history: seq<Entry>

    constructor (headersText: string)
      ensures this.headersText == headersText && history == []
    {
      this.headersText, history := headersText, [];
    }

    method UpsertHeader(name: string, value: string) returns (ok: bool)
      modifies this`headersText
      ensures ok == (Trim(name) != "")
      ensures headersText == if ok then Format(Upserted(Parse(old(headersText)), Trim(name), value)) else old(headersText)
    {
      hide Named, Parse, Format, Trim, FirstNamed, Upserted, UpsertedSoFar;
      var target := Trim(name);
      if target == "" {
        return false;
      }
      var headers := Parse(headersText);
      var next, replaced := [], false;
      UpsertedAtStart(headers, target, value);
      for i := 0 to |headers|
        invariant (replaced <==> FirstNamed(headers, target) < i) && next == UpsertedSoFar(headers, target, value, i)
      {
        var header := headers[i];
        UpsertedStep(headers, target, value, i);
        if Named(header, target) {
          if !replaced {
            next := next + [Header(target, value)];
            replaced := true;
          }
        } else {
          next := next + [header];
        }
      }
      if !replaced {
        next := next + [Header(target, value)];
      }
      UpsertedAtEnd(headers, target, value);
      headersText := Format(next);
      return true;
    }

    method RemoveHeader(name: string) returns (removed: bool)
      modifies this`headersText
      ensures removed == (Trim(name) != "" && exists h :: h in Parse(old(headersText)) && Named(h, Trim(name)))
      ensures headersText == if removed then Format(Without(Parse(old(headersText)), Trim(name))) else old(headersText)
    {
      hide Named, Parse, Format, Trim;
      var target := Trim(name);
      if target == "" {
        return false;
      }
      var headers := Parse(headersText);
      var next := Without(headers, target);
      WithoutMembers(headers, target);
      WithoutLength(headers, target);
      if forall h :: h in headers ==> !Named(h, target) {
        WithoutNone(headers, target);
      }
      if |next| == |headers| {
        return false;
      }
      headersText := Format(next);
      return true;
    }

    method RecordHistory(ts: int, service: string, httpMethod: string, path: string, insecure: bool)
      modifies this`history
      ensures history == if service == "" then old(history)
                         else Pushed(old(history), MakeEntry(Request(ts, service, httpMethod, path, headersText, insecure)))
    {
      if service == "" {
        return;
      }
      var safe := SafeHeaders(headersText);
      var entry := Entry(ts, service, httpMethod, NormalizedPath(path), "", safe, insecure,
                         httpMethod + " " + service + NormalizedPath(path), |Parse(safe)|);
      var key := Key(entry);
      history := Take(HISTORY_LIMIT, [entry] + WithoutKey(history, key));
    }
  }
}
