/** The paths models are served at: the checks on their parts (datamodel/config.go), the routes
    under each (handlers/dataHandler.go) and the registry that keeps paths apart
    (registry/registry.go). */
module Routes {
  import opened Wrappers

  const RESERVED_SEGMENTS := ["group", "diff", "fn", "history", "ws", "admin"]
  const RESERVED_SERVICES := ["admin", "mesh", "oauth", "ws", "fn", "health"]

  datatype Model = Model(table: Option<string>, service: Option<string>, endpoint: Option<string>)

  /** The sub-routes of a model's path. */
  datatype Sub = Base | Group | Fn(name: string) | Diff | History(key: string) | Socket

  // ---- Segments ----

  /** What lies between the '/'s: always at least one segment. */
  function Segments(s: string): (r: seq<string>)
    ensures r != []
  {
    if s == [] then [[]]
    else
      var rest := Segments(s[1..]);
      if s[0] == '/' then [[]] + rest else [[s[0]] + rest[0]] + rest[1..]
  }

  function Join(segments: seq<string>): string
    requires segments != []
  {
    if |segments| == 1 then segments[0] else segments[0] + "/" + Join(segments[1..])
  }

  lemma {:induction false} JoinSegments(s: string)
    ensures Join(Segments(s)) == s
  {
    if s != [] {
      JoinSegments(s[1..]);
      var rest := Segments(s[1..]);
      assert s == [s[0]] + s[1..];
      if s[0] == '/' {
        assert ([[]] + rest)[1..] == rest;
      } else {
        assert ([[s[0]] + rest[0]] + rest[1..])[1..] == rest[1..];
      }
    }
  }

  lemma {:induction false} SegmentsOfJoined(a: string, b: string)
    ensures Segments(a + "/" + b) == Segments(a) + Segments(b)
  {
    if a == [] {
      assert a + "/" + b == "/" + b && ("/" + b)[1..] == b;
    } else {
      SegmentsOfJoined(a[1..], b);
      SegmentsCons(a[0], a[1..]);
      SegmentsCons(a[0], a[1..] + "/" + b);
      assert a + "/" + b == [a[0]] + (a[1..] + "/" + b) && a == [a[0]] + a[1..];
      Prepended(a[0], Segments(a[1..]), Segments(b));
    }
  }

  /** One more character in front: of the first segment, or an empty one before it. */
  function Prepend(c: char, segments: seq<string>): seq<string>
    requires segments != []
  {
    if c == '/' then [[]] + segments else [[c] + segments[0]] + segments[1..]
  }

  lemma SegmentsCons(c: char, s: string)
    ensures Segments([c] + s) == Prepend(c, Segments(s))
  {
    assert ([c] + s)[1..] == s;
  }

  lemma Prepended(c: char, a: seq<string>, b: seq<string>)
    requires a != []
    ensures Prepend(c, a + b) == Prepend(c, a) + b
  {
    assert (a + b)[0] == a[0] && (a + b)[1..] == a[1..] + b;
  }

  lemma {:induction false} OneSegment(s: string)
    requires '/' !in s
    ensures Segments(s) == [s]
  {
    if s != [] {
      OneSegment(s[1..]);
      assert s == [s[0]] + s[1..];
    }
  }

  // ---- What a model may be called ----

  predicate IsSpace(c: char) {
    var n := c as int;
    || c == ' ' || 9 <= n <= 13 || n == 0x85 || n == 0xA0 || n == 0x1680 || 0x2000 <= n <= 0x200A
    || n == 0x2028 || n == 0x2029 || n == 0x202F || n == 0x205F || n == 0x3000
  }

  predicate IsAlnum(c: char) {
    '0' <= c <= '9' || 'A' <= c <= 'Z' || 'a' <= c <= 'z'
  }

  function TrimLeft(s: string): string {
    if s != [] && IsSpace(s[0]) then TrimLeft(s[1..]) else s
  }

  function TrimRight(s: string): string {
    if s != [] && IsSpace(s[|s| - 1]) then TrimRight(s[..|s| - 1]) else s
  }

  function TrimSpace(s: string): string {
    TrimRight(TrimLeft(s))
  }

  predicate SegmentOk(s: string) {
    s != [] && IsAlnum(s[0]) && forall i :: 0 <= i < |s| ==> IsAlnum(s[i]) || s[i] == '_' || s[i] == '-'
  }

  /** One or more segments, with no leading, trailing or repeated '/'. */
  predicate EndpointPattern(s: string) {
    forall i :: 0 <= i < |Segments(s)| ==> SegmentOk(Segments(s)[i])
  }

  predicate ValidService(s: string) {
    && 2 <= |s| <= 32 && 'a' <= s[0] <= 'z' && (forall i :: 0 <= i < |s| ==> 'a' <= s[i] <= 'z' || '0' <= s[i] <= '9')
    && s !in RESERVED_SERVICES
  }

  /** The end-point is checked without the spaces around it, and may be missing or blank. */
  predicate ValidEndpoint(endpoint: Option<string>) {
    endpoint.None? || TrimSpace(endpoint.value) == "" ||
    (EndpointPattern(TrimSpace(endpoint.value)) && Unreserved(Segments(TrimSpace(endpoint.value))))
  }

  predicate Unreserved(segments: seq<string>) {
    forall i :: 0 <= i < |segments| ==> segments[i] !in RESERVED_SEGMENTS
  }

  predicate Validated(m: Model) {
    m.service.Some? && ValidService(m.service.value) && ValidEndpoint(m.endpoint)
  }

  /** Where a model is served, "" if nowhere. The end-point keeps the spaces around it. */
  function Path(m: Model): string {
    if m.endpoint == None || m.endpoint.value == "" || m.service == None || m.service.value == "" then ""
    else m.service.value + "/" + m.endpoint.value
  }

  function Suffix(sub: Sub): string {
    match sub
    case Base => ""
    case Group => "/group"
    case Fn(name) => "/fn/" + name
    case Diff => "/diff"
    case History(key) => "/history/" + key
    case Socket => "/ws"
  }

  /** A wildcard stands for one segment. */
  predicate Fits(sub: Sub) {
    (sub.Fn? ==> '/' !in sub.name) && (sub.History? ==> '/' !in sub.key)
  }

  function SubSegments(sub: Sub): seq<string> {
    match sub
    case Base => []
    case Group => ["group"]
    case Fn(name) => ["fn", name]
    case Diff => ["diff"]
    case History(key) => ["history", key]
    case Socket => ["ws"]
  }

  /** A single segment is fit for an end-point exactly when it is letters, digits, '_' and '-',
      begun by a letter or a digit. */
  lemma OneSegmentFitsIff(s: string)
    requires '/' !in s
    ensures EndpointPattern(s) <==>
              && s != "" && s[0] != '_' && s[0] != '-'
              && forall i :: 0 <= i < |s| ==> '0' <= s[i] <= '9' || 'A' <= s[i] <= 'Z' || 'a' <= s[i] <= 'z' || s[i] == '_' || s[i] == '-'
  {
    OneSegment(s);
    assert Segments(s)[0] == s;
    assert EndpointPattern(s) <==> SegmentOk(s);
  }

  /** Two parts joined by a slash are an end-point exactly when each is. */
  lemma JoinedFitsIff(a: string, b: string)
    ensures EndpointPattern(a + "/" + b) <==> EndpointPattern(a) && EndpointPattern(b)
  {
    SegmentsOfJoined(a, b);
    FitsIn(a);
    FitsIn(b);
    FitsIn(a + "/" + b);
    assert forall seg :: seg in Segments(a) + Segments(b) <==> seg in Segments(a) || seg in Segments(b);
  }

  lemma FitsIn(e: string)
    ensures EndpointPattern(e) <==> forall seg :: seg in Segments(e) ==> SegmentOk(seg)
  {
    var segments := Segments(e);
    if forall seg :: seg in segments ==> SegmentOk(seg) {
      forall i | 0 <= i < |segments| ensures SegmentOk(segments[i]) {
        assert segments[i] in segments;
      }
    }
    if EndpointPattern(e) {
      forall seg | seg in segments ensures SegmentOk(seg) {
        var i :| 0 <= i < |segments| && segments[i] == seg;
      }
    }
  }

  /** An end-point of such parts is valid exactly when none of them is a sub-route's segment. */
  lemma ValidIff(e: string)
    requires EndpointPattern(e)
    ensures ValidEndpoint(Some(e)) <==> forall seg :: seg in Segments(e) ==> FreeSegment(seg)
  {
    EndsPlain(e);
    UnreservedIn(Segments(e));
    assert ValidEndpoint(Some(e)) <==> Unreserved(Segments(TrimSpace(e)));
  }

  predicate FreeSegment(seg: string) {
    seg !in {"group", "diff", "fn", "history", "ws", "admin"}
  }

  lemma UnreservedIn(segments: seq<string>)
    ensures Unreserved(segments) <==> forall seg :: seg in segments ==> FreeSegment(seg)
  {
    assert forall seg :: seg !in RESERVED_SEGMENTS <==> FreeSegment(seg);
    if Unreserved(segments) {
      forall seg | seg in segments ensures FreeSegment(seg) {
        var i :| 0 <= i < |segments| && segments[i] == seg;
      }
    }
    if forall seg :: seg in segments ==> FreeSegment(seg) {
      forall i | 0 <= i < |segments| ensures segments[i] !in RESERVED_SEGMENTS {
        assert segments[i] in segments && FreeSegment(segments[i]);
      }
    }
  }

  /** An end-point has no space at either end, so trimming leaves it. */
  lemma EndsPlain(e: string)
    requires EndpointPattern(e)
    ensures e != "" && TrimSpace(e) == e && !IsSpace(e[0]) && !IsSpace(e[|e| - 1])
  {
    FitsIn(e);
    OneSegment("");
    assert "" in Segments("") && !SegmentOk("");
    forall c | c in e ensures !IsSpace(c) {
      if c != '/' {
        PlainChars(e, c);
        var seg :| seg in Segments(e) && c in seg;
        assert SegmentOk(seg);
      }
    }
    assert e[0] in e && e[|e| - 1] in e;
  }

  lemma {:induction false} PlainChars(e: string, c: char)
    requires c in e && c != '/'
    ensures exists seg :: seg in Segments(e) && c in seg
  {
    if e[0] == c {
      assert Segments(e)[0][0] == c && Segments(e)[0] in Segments(e);
    } else {
      PlainChars(e[1..], c);
      var seg :| seg in Segments(e[1..]) && c in seg;
      if e[0] == '/' {
        assert seg in Segments(e);
      } else if seg == Segments(e[1..])[0] {
        assert c in Segments(e)[0] && Segments(e)[0] in Segments(e);
      } else {
        assert seg in Segments(e[1..])[1..];
      }
    }
  }

  predicate Blank(s: string) {
    forall i :: 0 <= i < |s| ==> s[i] in {' ', '\t', '\n', '\r'}
  }

  /** Spaces and line ends around an end-point do not count when it is checked. */
  lemma BlanksIgnored(before: string, e: string, after: string)
    requires Blank(before) && Blank(after) && EndpointPattern(e)
    ensures ValidEndpoint(Some(before + e + after)) <==> ValidEndpoint(Some(e))
    ensures ValidEndpoint(Some(before))
  {
    EndsPlain(e);
    DropsLeft(before, e + after);
    DropsRight(e, after);
    assert before + e + after == before + (e + after);
    DropsLeft(before, "");
    assert before + "" == before && TrimSpace(before) == "";
  }

  lemma {:induction false} DropsLeft(blank: string, s: string)
    requires Blank(blank) && (s != "" ==> !IsSpace(s[0]))
    ensures TrimLeft(blank + s) == s
  {
    if blank == "" {
      assert blank + s == s;
    } else {
      DropsLeft(blank[1..], s);
      assert (blank + s)[1..] == blank[1..] + s && IsSpace(blank[0]);
    }
  }

  lemma {:induction false} DropsRight(s: string, blank: string)
    requires Blank(blank) && s != "" && !IsSpace(s[|s| - 1])
    ensures TrimRight(s + blank) == s
    decreases |blank|
  {
    if blank == "" {
      assert s + blank == s;
    } else {
      var n := |blank| - 1;
      DropsRight(s, blank[..n]);
      assert (s + blank)[..|s + blank| - 1] == s + blank[..n] && (s + blank)[|s + blank| - 1] == blank[n] && IsSpace(blank[n]);
    }
  }

  /** A lower-case letter and one to thirty-one letters or digits are a service's name, unless the
      server uses it itself. */
  lemma ServiceFitsIff(c: char, rest: string)
    requires 'a' <= c <= 'z' && 1 <= |rest| <= 31
    requires forall i :: 0 <= i < |rest| ==> 'a' <= rest[i] <= 'z' || '0' <= rest[i] <= '9'
    ensures ValidService([c] + rest) <==> [c] + rest !in {"admin", "mesh", "oauth", "ws", "fn", "health"}
  {
  }

  /** The URLs of a model, as they are registered. */
  lemma UrlsAre(service: string, endpoint: string, name: string, key: string)
    requires service != "" && endpoint != ""
    ensures var m := Model(Some("t"), Some(service), Some(endpoint)); var path := service + "/" + endpoint;
            && Url(m, Base) == path && Url(m, Group) == path + "/group" && Url(m, Fn(name)) == path + "/fn/" + name
            && Url(m, Diff) == path + "/diff" && Url(m, History(key)) == path + "/history/" + key && Url(m, Socket) == path + "/ws"
  {
  }

  // ---- Spaces around an end-point ----

  predicate HasSpace(s: string) {
    exists i :: 0 <= i < |s| && IsSpace(s[i])
  }

  /** Dropping a space from the front changes only the first segment, which had that space. */
  lemma {:induction false} TrimLeftSegments(s: string, seg: string)
    requires seg in Segments(s)
    ensures seg in Segments(TrimLeft(s)) || HasSpace(seg)
    decreases |s|
  {
    if s != [] && IsSpace(s[0]) {
      var rest := Segments(s[1..]);
      assert Segments(s) == [[s[0]] + rest[0]] + rest[1..];
      if seg == [s[0]] + rest[0] {
        assert IsSpace(seg[0]);
      } else {
        assert seg in rest[1..];
        TrimLeftSegments(s[1..], seg);
      }
    }
  }

  lemma {:induction false} SegmentsSnoc(s: string, c: char)
    requires c != '/'
    ensures Segments(s + [c]) == Appended(Segments(s), c)
  {
    if s == [] {
      assert s + [c] == [c] + [];
      SegmentsCons(c, []);
    } else {
      SegmentsSnoc(s[1..], c);
      SegmentsCons(s[0], s[1..]);
      SegmentsCons(s[0], s[1..] + [c]);
      assert s + [c] == [s[0]] + (s[1..] + [c]) && s == [s[0]] + s[1..];
      PrependAppended(s[0], Segments(s[1..]), c);
    }
  }

  /** One more character at the end of the last segment. */
  function Appended(segments: seq<string>, c: char): seq<string>
    requires segments != []
  {
    segments[..|segments| - 1] + [segments[|segments| - 1] + [c]]
  }

  lemma PrependAppended(d: char, a: seq<string>, c: char)
    requires a != []
    ensures Prepend(d, Appended(a, c)) == Appended(Prepend(d, a), c)
  {
    var n := |a| - 1;
    if d == '/' {
      assert ([[]] + a)[..|a|] == [[]] + a[..n];
    } else if n == 0 {
      assert [d] + (a[0] + [c]) == ([d] + a[0]) + [c];
    } else {
      var first, middle, last := [d] + a[0], a[1..n], a[n];
      assert Prepend(d, a) == [first] + middle + [last];
      assert Appended(a, c)[1..] == middle + [last + [c]] && Appended(a, c)[0] == a[0];
      assert Prepend(d, Appended(a, c)) == [first] + middle + [last + [c]];
      AppendedIs([first] + middle, last, c);
    }
  }

  lemma AppendedIs(front: seq<string>, last: string, c: char)
    ensures Appended(front + [last], c) == front + [last + [c]]
  {
  }

  lemma {:induction false} TrimRightSegments(s: string, seg: string)
    requires seg in Segments(s)
    ensures seg in Segments(TrimRight(s)) || HasSpace(seg)
    decreases |s|
  {
    if s != [] && IsSpace(s[|s| - 1]) {
      var n := |s| - 1;
      var r := Segments(s[..n]);
      assert s == s[..n] + [s[n]];
      SegmentsSnoc(s[..n], s[n]);
      var last := r[|r| - 1] + [s[n]];
      if seg == last {
        assert IsSpace(seg[|seg| - 1]);
      } else {
        assert seg in r[..|r| - 1];
        TrimRightSegments(s[..n], seg);
      }
    }
  }

  /** No segment of a validated end-point is one of the routes' own, spaces and all. */
  lemma NoReservedSegment(m: Model, seg: string)
    requires Validated(m) && m.endpoint.Some? && m.endpoint.value != "" && seg in Segments(m.endpoint.value)
    ensures seg !in RESERVED_SEGMENTS
  {
    var e := m.endpoint.value;
    if !HasSpace(seg) {
      TrimLeftSegments(e, seg);
      TrimRightSegments(TrimLeft(e), seg);
      assert seg in Segments(TrimSpace(e));
      if TrimSpace(e) == "" {
        assert Segments("") == [""];
      }
    } else {
      NoSpaceInReserved(seg);
    }
  }

  lemma NoSpaceInReserved(seg: string)
    requires HasSpace(seg)
    ensures seg !in RESERVED_SEGMENTS
  {
    forall w | w in RESERVED_SEGMENTS ensures LowerCase(w) {
      ReservedLower();
    }
    assert !LowerCase(seg);
  }

  predicate LowerCase(s: string) {
    forall i :: 0 <= i < |s| ==> 'a' <= s[i] <= 'z'
  }

  lemma ReservedLower()
    ensures LowerCase("group") && LowerCase("diff") && LowerCase("fn") && LowerCase("history") && LowerCase("ws") && LowerCase("admin")
  {
  }

  // ---- Decoding a URL ----

  /** How many segments come before the first reserved one. */
  function BeforeReserved(segments: seq<string>): (n: nat)
    ensures n <= |segments|
  {
    if segments == [] || segments[0] in RESERVED_SEGMENTS then 0 else 1 + BeforeReserved(segments[1..])
  }

  /** The path a URL's segments belong to: the service and what precedes the first reserved
      segment after it. */
  function Decode(segments: seq<string>): string
    requires segments != []
  {
    Join(segments[..1 + BeforeReserved(segments[1..])])
  }

  lemma {:induction false} BeforeReservedIs(a: seq<string>, b: seq<string>)
    requires forall s :: s in a ==> s !in RESERVED_SEGMENTS
    requires b != [] ==> b[0] in RESERVED_SEGMENTS
    ensures BeforeReserved(a + b) == |a|
  {
    if a == [] {
      assert a + b == b;
    } else {
      assert (a + b)[1..] == a[1..] + b;
      BeforeReservedIs(a[1..], b);
    }
  }

  function Url(m: Model, sub: Sub): string {
    Path(m) + Suffix(sub)
  }

  lemma UrlSegments(m: Model, sub: Sub)
    requires Validated(m) && Path(m) != "" && Fits(sub)
    ensures Segments(Url(m, sub)) == [m.service.value] + Segments(m.endpoint.value) + SubSegments(sub)
  {
    var service, e := m.service.value, m.endpoint.value;
    OneSegment(service);
    SegmentsOfJoined(service, e);
    assert Segments(Path(m)) == [service] + Segments(e);
    SuffixSegments(Path(m), sub);
  }

  lemma SuffixSegments(path: string, sub: Sub)
    requires Fits(sub)
    ensures Segments(path + Suffix(sub)) == Segments(path) + SubSegments(sub)
  {
    match sub
    case Base => assert path + Suffix(sub) == path;
    case Group => OneWord(path, "group"); assert Suffix(sub) == "/" + "group";
    case Diff => OneWord(path, "diff"); assert Suffix(sub) == "/" + "diff";
    case Socket => OneWord(path, "ws"); assert Suffix(sub) == "/" + "ws";
    case Fn(name) => assert "/fn/" == "/" + "fn" + "/"; TwoSegments(path, "fn", name);
    case History(key) => assert "/history/" == "/" + "history" + "/"; TwoSegments(path, "history", key);
  }

  lemma OneWord(path: string, word: string)
    requires '/' !in word
    ensures Segments(path + ("/" + word)) == Segments(path) + [word]
  {
    assert path + ("/" + word) == path + "/" + word;
    SegmentsOfJoined(path, word);
    OneSegment(word);
  }

  lemma TwoSegments(path: string, word: string, x: string)
    requires '/' !in word && '/' !in x
    ensures Segments(path + ("/" + word + "/" + x)) == Segments(path) + [word, x]
  {
    var tail := word + "/" + x;
    assert Segments(tail) == [word, x] by {
      SegmentsOfJoined(word, x);
      OneSegment(word);
      OneSegment(x);
    }
    assert path + ("/" + word + "/" + x) == path + "/" + tail;
    SegmentsOfJoined(path, tail);
  }

  /** From a URL of a model its path is recovered, whichever of its routes it is. */
  lemma UrlDecodes(m: Model, sub: Sub)
    requires Validated(m) && Path(m) != "" && Fits(sub)
    ensures Decode(Segments(Url(m, sub))) == Path(m)
    ensures Segments(Url(m, sub))[0] !in RESERVED_SERVICES
  {
    var service, e := m.service.value, Segments(m.endpoint.value);
    UrlSegments(m, sub);
    forall s | s in e ensures s !in RESERVED_SEGMENTS {
      NoReservedSegment(m, s);
    }
    DecodeStopsAtTail(service, e, SubSegments(sub));
    OneSegment(service);
    SegmentsOfJoined(service, m.endpoint.value);
    JoinSegments(Path(m));
  }

  lemma DecodeStopsAtTail(service: string, e: seq<string>, tail: seq<string>)
    requires forall s :: s in e ==> s !in RESERVED_SEGMENTS
    requires tail != [] ==> tail[0] in RESERVED_SEGMENTS
    ensures Decode([service] + e + tail) == Join([service] + e)
  {
    var all := [service] + e + tail;
    assert all[1..] == e + tail;
    BeforeReservedIs(e, tail);
    assert all[..1 + |e|] == [service] + e;
  }

  /** One URL is a route of at most one path, and there of one sub-route. */
  lemma OneModelPerUrl(m: Model, sub: Sub, other: Model, sub': Sub)
    requires Validated(m) && Validated(other) && Path(m) != "" && Path(other) != "" && Fits(sub) && Fits(sub')
    requires Url(m, sub) == Url(other, sub')
    ensures Path(m) == Path(other) && sub == sub'
  {
    UrlDecodes(m, sub);
    UrlDecodes(other, sub');
    UrlSegments(m, sub);
    UrlSegments(other, sub');
    OneSegment(m.service.value);
    OneSegment(other.service.value);
    SegmentsOfJoined(m.service.value, m.endpoint.value);
    SegmentsOfJoined(other.service.value, other.endpoint.value);
    var p := Segments(Path(m));
    assert p + SubSegments(sub) == p + SubSegments(sub');
    assert SubSegments(sub) == (p + SubSegments(sub))[|p|..] == (p + SubSegments(sub'))[|p|..] == SubSegments(sub');
    SubsDiffer(sub, sub');
  }

  lemma SubsDiffer(sub: Sub, sub': Sub)
    requires SubSegments(sub) == SubSegments(sub')
    ensures sub == sub'
  {
    if sub != Base && sub' != Base {
      assert SubSegments(sub)[0] == SubSegments(sub')[0];
      assert "group"[0] == 'g' && "fn"[0] == 'f' && "diff"[0] == 'd' && "history"[0] == 'h' && "ws"[0] == 'w';
    }
    if |SubSegments(sub)| == 2 {
      assert SubSegments(sub)[1] == SubSegments(sub')[1];
    }
  }

  // ---- The registry ----

  ghost predicate PathsApart(models: map<string, Model>) {
    && (forall t :: t in models ==> models[t].table == Some(t))
    && (forall t, u :: t in models && u in models && t != u && Path(models[t]) != "" ==> Path(models[t]) != Path(models[u]))
  }

  class ModelRegistry {
    var models: map<string, Model>

    constructor ()
      ensures models == map[]
    {
      models := map[];
    }

    /** Adds or replaces a table's model, unless another table's is served at its path. */
    method Register(m: Model) returns (ok: bool)
      requires PathsApart(models)
      modifies this
      ensures PathsApart(models)
      ensures ok <==> m.table.Some? && !exists t :: t in old(models) && t != m.table.value && Path(m) != "" && Path(old(models)[t]) == Path(m)
      ensures models == if ok then old(models)[m.table.value := m] else old(models)
    {
      if m.table.None? {
        return false;
      }
      var path := Path(m);
      if path != "" {
        var other := OtherByPath(path, m.table.value);
        if other.Some? {
          return false;
        }
      }
      models := models[m.table.value := m];
      ok := true;
    }

    /** A model other than the table's that is served at the path. */
    method OtherByPath(path: string, table: string) returns (m: Option<Model>)
      requires PathsApart(models)
      ensures m.Some? <==> path != "" && exists t :: t in models && t != table && Path(models[t]) == path
      ensures m.Some? ==> m.value.table.Some? && m.value.table.value != table && Path(m.value) == path && m.value in models.Values
    {
      if path == "" {
        return None;
      }
      var tables := models.Keys;
      while tables != {}
        invariant tables <= models.Keys
        invariant forall t :: t in models && t !in tables && t != table ==> Path(models[t]) != path
        decreases |tables|
      {
        var t :| t in tables;
        tables := tables - {t};
        if t != table && Path(models[t]) == path {
          return Some(models[t]);
        }
      }
      m := None;
    }

    /** The one model served at the path, if any, whatever order the map is ranged in. */
    method ByPath(path: string) returns (m: Option<Model>)
      requires PathsApart(models)
      ensures m.Some? <==> path != "" && exists t :: t in models && Path(models[t]) == path
      ensures m.Some? ==> Path(m.value) == path && m.value in models.Values
      ensures m.Some? ==> forall t :: t in models && Path(models[t]) == path ==> models[t] == m.value
    {
      if path == "" {
        return None;
      }
      var tables := models.Keys;
      while tables != {}
        invariant tables <= models.Keys
        invariant forall t :: t in models && t !in tables ==> Path(models[t]) != path
        decreases |tables|
      {
        var t :| t in tables;
        tables := tables - {t};
        if Path(models[t]) == path {
          return Some(models[t]);
        }
      }
      m := None;
    }
  }

  /** With the registry's paths apart, a URL is a route of at most one table. */
  lemma OneTablePerUrl(models: map<string, Model>, t: string, u: string, sub: Sub, sub': Sub)
    requires PathsApart(models) && t in models && u in models && Validated(models[t]) && Validated(models[u])
    requires Path(models[t]) != "" && Path(models[u]) != "" && Fits(sub) && Fits(sub')
    requires Url(models[t], sub) == Url(models[u], sub')
    ensures t == u && sub == sub'
  {
    OneModelPerUrl(models[t], sub, models[u], sub');
  }

  /** Without the check on segments two models could share a URL. */
  lemma ReservedSegmentsNeeded(service: string, endpoint: string)
    requires service != "" && endpoint != "" && EndpointPattern(endpoint)
    ensures var a := Model(Some("a"), Some(service), Some(endpoint));
            var b := Model(Some("b"), Some(service), Some(endpoint + "/group"));
            EndpointPattern(endpoint + "/group") && Path(a) != Path(b) && Url(a, Group) == Url(b, Base)
  {
    assert EndpointPattern(endpoint + "/group") by {
      SegmentsOfJoined(endpoint, "group");
      OneSegment("group");
      assert endpoint + "/group" == endpoint + "/" + "group";
      assert SegmentOk("group");
    }
    var a := Model(Some("a"), Some(service), Some(endpoint));
    var b := Model(Some("b"), Some(service), Some(endpoint + "/group"));
    assert Path(b) == Path(a) + "/group";
    assert |Path(b)| > |Path(a)|;
  }
}
