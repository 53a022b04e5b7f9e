/**
The multipart form parser of the web server, and the rendering it undoes: section 5.1.1 of RFC 2046 for the
boundaries, section 4 of RFC 7578 for the parts.
*/
module Multipart {
  import opened Options
  import opened Sequences
  import opened Search
  import opened Inbound
  import opened NoteOrder

  const CRLF := "\r\n"
  const COLON := ": "
  const SEMICOLON := "; "
  const DISPOSITION := "Content-Disposition"

  type Headers = seq<(string, string)>      // a std::map: ascending keys

  datatype PartData = PartData(name: string, filename: string, headers: Headers, content: string)

  // ---------------------------------------------------------------- the parser

  // The loop over sbuf: what lies between the boundaries.
  function Pieces(sbuf: string, bound: string): seq<string>
    requires bound != ""
    decreases |sbuf|
  {
    if sbuf == "" then []
    else
      match Find(sbuf, bound)
      case None => [sbuf]
      case Some(pos) => [sbuf[..pos]] + Pieces(sbuf[pos + |bound|..], bound)
  }

  function Strip(s: string): string {
    if |s| > 1 && s[0] == '\r' && s[1] == '\n' then s[2..] else s
  }

  // lparams[key] = val
  function Put(m: Headers, k: string, v: string): Headers {
    if m == [] then [(k, v)]
    else if m[0].0 == k then [(k, v)] + m[1..]
    else if StringLess(k, m[0].0) then [(k, v)] + m
    else [m[0]] + Put(m[1..], k, v)
  }

  datatype Section = BadSection | Section(headers: Headers, content: string)

  // The header lines up to the empty one; the content is without its last two characters.
  function ReadHeaders(s: string, acc: Headers): Section
    decreases |s|
  {
    match Find(s, CRLF)
    case None => BadSection
    case Some(pp) =>
      var line, rest := s[..pp], s[pp + 2..];
      if line == "" then Section(acc, if |rest| >= 2 then rest[..|rest| - 2] else rest)
      else
        match WithLine(line, acc)
        case None => BadSection
        case Some(acc1) => ReadHeaders(rest, acc1)
  }

  function WithLine(line: string, acc: Headers): Option<Headers> {
    match Find(line, COLON)
    case None => None
    case Some(pz) => Some(Put(acc, line[..pz], line[pz + 2..]))
  }

  function Fields(cd: string): seq<string>
    decreases |cd|
  {
    if cd == "" then []
    else
      match Find(cd, SEMICOLON)
      case None => [cd]
      case Some(ps) => [cd[..ps]] + Fields(cd[ps + 2..])
  }

  function Unquote(val: string): string {
    var v := if |val| > 2 && val[0] == '\"' && val[|val| - 1] == '\"' then val[1..|val| - 1] else val;
    if v == "\"\"" then "" else v
  }

  // name and filename, so far and from the rest of the fields.
  function Names(flds: seq<string>, name: string, filename: string): (string, string) {
    if flds == [] then (name, filename)
    else
      match Find(flds[0], "=")
      case None => Names(flds[1..], name, filename)
      case Some(p) =>
        var key, val := flds[0][..p], Unquote(flds[0][p + 1..]);
        Names(flds[1..], if key == "name" then val else name, if key == "filename" then val else filename)
  }

  function Get(m: Headers, k: string): Option<string> {
    if m == [] then None else if m[0].0 == k then Some(m[0].1) else Get(m[1..], k)
  }

  // The parts up to the first bad one.
  datatype Form = Form(parts: seq<PartData>, ok: bool)

  function ReadPieces(ss: seq<string>): Form {
    if ss == [] then Form([], true)
    else
      var s := Strip(ss[0]);
      if s == "" then ReadPieces(ss[1..])
      else
        match ReadHeaders(s, [])
        case BadSection => Form([], false)
        case Section(headers, content) =>
          var f := ReadPieces(ss[1..]);
          f.(parts := PartOf(headers, content) + f.parts)
  }

  function PartOf(headers: Headers, content: string): seq<PartData> {
    match Get(headers, DISPOSITION)
    case None => []
    case Some(cd) =>
      var (name, filename) := Names(Fields(cd), "", "");
      [PartData(name, filename, headers, content)]
  }

  // ---------------------------------------------------------------- the parameters

  function Derived(name: string, headers: Headers, up: string -> string): seq<(string, string)> {
    if headers == [] then [] else [(name + "_" + up(headers[0].0), headers[0].1)] + Derived(name, headers[1..], up)
  }

  // What one part assigns, in order; up stands for strupper.
  function Assignments(p: PartData, up: string -> string): seq<(string, string)> {
    [(p.name, p.content)]
    + (if p.filename != "" then [(p.name + "_FILENAME", p.filename)] else [])
    + Derived(p.name, p.headers, up)
  }

  function AllAssignments(ps: seq<PartData>, up: string -> string): seq<(string, string)> {
    if ps == [] then [] else Assignments(ps[0], up) + AllAssignments(ps[1..], up)
  }

  function Assign(xs: seq<(string, string)>, params: map<string, string>): map<string, string> {
    if xs == [] then params else Assign(xs[1..], params[xs[0].0 := xs[0].1])
  }

  // ---------------------------------------------------------------- rendering

  datatype Part = Part(name: string, filename: string, headers: seq<(string, string)>, content: string)

  function DispositionOf(p: Part): string {
    "form-data" + (SEMICOLON
      + if p.filename == "" then Field("name", p.name)
        else Field("name", p.name) + (SEMICOLON + Field("filename", p.filename)))
  }

  function Field(key: string, val: string): string { key + ("=" + ("\"" + val + "\"")) }

  function HeadersOf(p: Part): seq<(string, string)> { [(DISPOSITION, DispositionOf(p))] + p.headers }

  function RenderHeaders(hs: seq<(string, string)>): string {
    if hs == [] then "" else (hs[0].0 + (COLON + hs[0].1)) + (CRLF + RenderHeaders(hs[1..]))
  }

  function RenderPart(p: Part): string { CRLF + (RenderHeaders(HeadersOf(p)) + (CRLF + (p.content + CRLF))) }

  // Each part after its boundary.
  function Body(rs: seq<string>, bound: string): string {
    if rs == [] then "" else (bound + rs[0]) + Body(rs[1..], bound)
  }

  // A name that survives the quoting.
  predicate GoodName(s: string) { Find(s, SEMICOLON) == None && '\r' !in s && s != "\"\"" }

  predicate GoodHeader(h: (string, string)) {
    '\r' !in h.0 && '\r' !in h.1 && Find(h.0, COLON) == None && h.0 != DISPOSITION
  }

  predicate DistinctKeys(xs: seq<(string, string)>) {
    forall i, j :: 0 <= i < j < |xs| ==> xs[i].0 != xs[j].0
  }

  predicate GoodPart(p: Part) {
    && GoodName(p.name) && GoodName(p.filename)
    && (forall i :: 0 <= i < |p.headers| ==> GoodHeader(p.headers[i]))
    && DistinctKeys(p.headers)
  }

  predicate GoodParts(ps: seq<Part>) { forall i :: 0 <= i < |ps| ==> GoodPart(ps[i]) }

  // A boundary is on one line.
  predicate Boundary(bound: string) { bound != "" && '\r' !in bound && '\n' !in bound }

  // The text of a part begins and ends with a line break and does not contain the boundary.
  predicate Enclosed(r: string, bound: string) {
    r != "" && r[0] == '\r' && r[|r| - 1] == '\n' && Find(r, bound) == None
  }

  predicate AllEnclosed(rs: seq<string>, bound: string) { forall i :: 0 <= i < |rs| ==> Enclosed(rs[i], bound) }

  function PutAll(hs: seq<(string, string)>, acc: Headers): Headers {
    if hs == [] then acc else PutAll(hs[1..], Put(acc, hs[0].0, hs[0].1))
  }

  function DataOf(p: Part): PartData { PartData(p.name, p.filename, PutAll(HeadersOf(p), []), p.content) }

  function DataOfAll(ps: seq<Part>): seq<PartData> { if ps == [] then [] else [DataOf(ps[0])] + DataOfAll(ps[1..]) }

  function RenderAll(ps: seq<Part>): seq<string> { if ps == [] then [] else [RenderPart(ps[0])] + RenderAll(ps[1..]) }

  // ---------------------------------------------------------------- boundaries

  lemma ClosingIsNotInPart(r: string, bound: string)
    requires Boundary(bound) && Enclosed(r, bound)
    ensures Find(bound + r, bound + "--") == None
  {
    var t, e := bound + r, bound + "--";
    FindSpec(t, e);
    FindSpec(r, bound);
    if Find(t, e).Some? {
      var i := Find(t, e).value;
      if i <= |bound| {
        NoCross(t, e, i, |bound|);
      } else {
        OccursShifted(bound, r, e, i - |bound|);
        OccursBegins(r, bound, "--", i - |bound|);
      }
    }
  }

  lemma OccursBegins(s: string, d: string, more: string, i: nat)
    requires OccursAt(s, d + more, i)
    ensures OccursAt(s, d, i)
  {
    assert forall j :: 0 <= j < |d| ==> d[j] == (d + more)[j];
  }

  // __gets takes exactly the parts: the closing boundary is the first one followed by "--".
  lemma {:induction false} ClosingIsFirst(rs: seq<string>, bound: string)
    requires Boundary(bound) && AllEnclosed(rs, bound)
    ensures Find(Body(rs, bound) + (bound + "--"), bound + "--") == Some(|Body(rs, bound)|)
  {
    var e := bound + "--";
    if rs == [] {
      assert "" + e == e + "";
      FindAtOnce(e, "");
    } else {
      var a, rest := bound + rs[0], Body(rs[1..], bound);
      ClosingIsNotInPart(rs[0], bound);
      ClosingIsFirst(rs[1..], bound);
      SkipText(a, rest + e, e);
      Assoc(a, rest, e);
    }
  }

  lemma PiecesCut(s: string, bound: string, pos: nat)
    requires bound != "" && Find(s, bound) == Some(pos)
    ensures Pieces(s, bound) == [s[..pos]] + Pieces(s[pos + |bound|..], bound)
  {
  }

  lemma PiecesStep(r: string, bound: string, b: string)
    requires Boundary(bound) && Enclosed(r, bound)
    ensures Pieces(r + (bound + b), bound) == [r] + Pieces(b, bound)
  {
    SkipText(r, bound + b, bound);
    FindAtOnce(bound, b);
    PiecesCut(r + (bound + b), bound, |r|);
    Around(r, bound, b);
  }

  lemma {:induction false} PiecesAreParts(rs: seq<string>, bound: string)
    requires Boundary(bound) && AllEnclosed(rs, bound) && rs != []
    ensures Pieces(rs[0] + Body(rs[1..], bound), bound) == rs
  {
    var r := rs[0];
    if rs[1..] == [] {
      assert r + "" == r && [r] == rs;
    } else {
      var rest := rs[1] + Body(rs[1..][1..], bound);
      Assoc(bound, rs[1], Body(rs[1..][1..], bound));
      assert Body(rs[1..], bound) == bound + rest;
      PiecesStep(r, bound, rest);
      PiecesAreParts(rs[1..], bound);
    }
  }

  // ---------------------------------------------------------------- one part

  lemma HeaderCut(s: string, line: string, rest: string, acc: Headers)
    requires Find(s, CRLF) == Some(|line|) && s[..|line|] == line && s[|line| + 2..] == rest && line != ""
    ensures ReadHeaders(s, acc) == match WithLine(line, acc) { case None => BadSection case Some(m) => ReadHeaders(rest, m) }
  {
  }

  lemma LineAdds(k: string, v: string, acc: Headers)
    requires Find(k, COLON) == None
    ensures WithLine(k + (COLON + v), acc) == Some(Put(acc, k, v))
  {
    FindPair(k, COLON, v);
    Around(k, COLON, v);
  }

  lemma HeaderLine(k: string, v: string, rest: string, acc: Headers)
    requires '\r' !in k && '\r' !in v && Find(k, COLON) == None
    ensures ReadHeaders((k + (COLON + v)) + (CRLF + rest), acc) == ReadHeaders(rest, Put(acc, k, v))
  {
    var line := k + (COLON + v);
    LineIsFirst(line, rest);
    LineAdds(k, v, acc);
    HeaderCut(line + (CRLF + rest), line, rest, acc);
  }

  lemma LineIsFirst(line: string, rest: string)
    requires '\r' !in line
    ensures var s := line + (CRLF + rest);
      Find(s, CRLF) == Some(|line|) && s[..|line|] == line && s[|line| + 2..] == rest
  {
    FreeOf(line, CRLF);
    FindPair(line, CRLF, rest);
    Around(line, CRLF, rest);
  }

  lemma EmptyLine(content: string, acc: Headers)
    ensures ReadHeaders(CRLF + (content + CRLF), acc) == Section(acc, content)
  {
    FindAtOnce(CRLF, content + CRLF);
    Around("", CRLF, content + CRLF);
    assert "" + (CRLF + (content + CRLF)) == CRLF + (content + CRLF);
    assert (content + CRLF)[..|content|] == content;
  }

  lemma {:induction false} HeadersRoundTrip(hs: seq<(string, string)>, acc: Headers, content: string)
    requires forall i :: 0 <= i < |hs| ==> OnOneLine(hs[i])
    ensures ReadHeaders(RenderHeaders(hs) + (CRLF + (content + CRLF)), acc) == Section(PutAll(hs, acc), content)
  {
    var tail := CRLF + (content + CRLF);
    if hs == [] {
      assert "" + tail == tail;
      EmptyLine(content, acc);
    } else {
      var (k, v) := hs[0];
      assert OnOneLine(hs[0]);
      var line, rest := k + (COLON + v), RenderHeaders(hs[1..]);
      Assoc(line, CRLF + rest, tail);
      Assoc(CRLF, rest, tail);
      HeaderLine(k, v, rest + tail, acc);
      HeadersRoundTrip(hs[1..], Put(acc, k, v), content);
    }
  }

  lemma FieldHasNoSemicolon(key: string, val: string)
    requires key == "name" || key == "filename"
    requires Find(val, SEMICOLON) == None
    ensures Find(Field(key, val), SEMICOLON) == None
  {
    var pre := key + "=\"";
    FreeOf(pre, SEMICOLON);
    FreeOf("\"", SEMICOLON);
    JoinPair(pre, val, SEMICOLON);
    JoinPair(pre + val, "\"", SEMICOLON);
    assert Field(key, val) == pre + val + "\"";
  }

  lemma UnquoteQuoted(val: string)
    requires val != "\"\""
    ensures Unquote("\"" + val + "\"") == val
  {
    var q := "\"" + val + "\"";
    assert q[1..|q| - 1] == val;
    assert |q| == 2 ==> q == "\"\"";
  }

  lemma FieldParts(key: string, val: string)
    requires key == "name" || key == "filename"
    ensures var f := Field(key, val);
      Find(f, "=") == Some(|key|) && f[..|key|] == key && f[|key| + 1..] == "\"" + val + "\""
  {
    var q := "\"" + val + "\"";
    FreeOf(key, "=");
    SkipText(key, "=" + q, "=");
    FindAtOnce("=", q);
    Around(key, "=", q);
  }

  lemma NamesCut(f: string, flds: seq<string>, p: nat, name: string, filename: string)
    requires Find(f, "=") == Some(p)
    ensures var val := Unquote(f[p + 1..]);
      Names([f] + flds, name, filename)
      == Names(flds, if f[..p] == "name" then val else name, if f[..p] == "filename" then val else filename)
  {
    assert ([f] + flds)[1..] == flds;
  }

  lemma FieldRoundTrip(key: string, val: string, flds: seq<string>, name: string, filename: string)
    requires (key == "name" || key == "filename") && val != "\"\""
    ensures Names([Field(key, val)] + flds, name, filename)
      == Names(flds, if key == "name" then val else name, if key == "filename" then val else filename)
  {
    FieldParts(key, val);
    UnquoteQuoted(val);
    NamesCut(Field(key, val), flds, |key|, name, filename);
  }

  lemma FieldsCut(cd: string, a: string, rest: string)
    requires Find(cd, SEMICOLON) == Some(|a|) && cd[..|a|] == a && cd[|a| + 2..] == rest
    ensures Fields(cd) == [a] + Fields(rest)
  {
  }

  lemma FieldsStep(a: string, b: string)
    requires Find(a, SEMICOLON) == None
    ensures Fields(a + (SEMICOLON + b)) == [a] + Fields(b)
  {
    var cd := a + (SEMICOLON + b);
    FindPair(a, SEMICOLON, b);
    Around(a, SEMICOLON, b);
    FieldsCut(cd, a, b);
  }

  lemma FieldsLast(a: string)
    requires a != "" && Find(a, SEMICOLON) == None
    ensures Fields(a) == [a] + []
  {
  }

  lemma NoName(a: string, flds: seq<string>, name: string, filename: string)
    requires '=' !in a
    ensures Names([a] + flds, name, filename) == Names(flds, name, filename)
  {
    FreeOf(a, "=");
    assert ([a] + flds)[1..] == flds;
  }

  // name and filename come back from the Content-Disposition line.
  lemma DispositionRoundTrip(p: Part)
    requires GoodName(p.name) && GoodName(p.filename)
    ensures Names(Fields(DispositionOf(p)), "", "") == (p.name, p.filename)
  {
    var n, f := Field("name", p.name), Field("filename", p.filename);
    FreeOf("form-data", SEMICOLON);
    FieldHasNoSemicolon("name", p.name);
    FieldHasNoSemicolon("filename", p.filename);
    DispositionFields("form-data", n, f, p.name, p.filename);
  }

  lemma DispositionFields(a: string, n: string, f: string, name: string, filename: string)
    requires Find(a, SEMICOLON) == None && '=' !in a && name != "\"\"" && filename != "\"\""
    requires n == Field("name", name) && f == Field("filename", filename)
    requires Find(n, SEMICOLON) == None && Find(f, SEMICOLON) == None
    ensures Names(Fields(a + (SEMICOLON + n)), "", "") == (name, "")
    ensures Names(Fields(a + (SEMICOLON + (n + (SEMICOLON + f)))), "", "") == (name, filename)
  {
    FieldsStep(a, n);
    FieldsLast(n);
    NoName(a, [n] + [], "", "");
    FieldRoundTrip("name", name, [], "", "");
    FieldsStep(a, n + (SEMICOLON + f));
    FieldsStep(n, f);
    FieldsLast(f);
    NoName(a, [n] + ([f] + []), "", "");
    FieldRoundTrip("name", name, [f] + [], "", "");
    FieldRoundTrip("filename", filename, [], name, "");
  }

  lemma {:induction false} PutContains(m: Headers, k: string, v: string)
    requires forall i :: 0 <= i < |m| ==> m[i].0 != k
    ensures forall x :: x in Put(m, k, v) <==> x == (k, v) || x in m
  {
    if m != [] {
      assert m == [m[0]] + m[1..];
      if !StringLess(k, m[0].0) { PutContains(m[1..], k, v); }
    }
  }

  // Distinct headers are all there afterwards.
  lemma {:induction false} PutAllContains(hs: seq<(string, string)>, acc: Headers)
    requires DistinctKeys(hs) && forall i, j :: 0 <= i < |hs| && 0 <= j < |acc| ==> hs[i].0 != acc[j].0
    ensures forall x :: x in PutAll(hs, acc) <==> x in hs || x in acc
  {
    if hs != [] {
      var acc1 := Put(acc, hs[0].0, hs[0].1);
      PutContains(acc, hs[0].0, hs[0].1);
      assert hs == [hs[0]] + hs[1..];
      forall i, j | 0 <= i < |hs[1..]| && 0 <= j < |acc1|
        ensures hs[1..][i].0 != acc1[j].0
      {
        assert acc1[j] in acc1;
        assert hs[1..][i] == hs[i + 1];
        if acc1[j] != hs[0] {
          var l :| 0 <= l < |acc| && acc[l] == acc1[j];
        }
      }
      PutAllContains(hs[1..], acc1);
    }
  }

  lemma {:induction false} GetIs(m: Headers, k: string, v: string)
    requires (k, v) in m && forall x, y :: x in m && y in m && x.0 == y.0 ==> x == y
    ensures Get(m, k) == Some(v)
  {
    assert m == [m[0]] + m[1..];
    if m[0].0 == k {
      assert m[0] in m;
    } else {
      GetIs(m[1..], k, v);
    }
  }

  lemma FirstHeaderPut(k: string, v: string, headers: seq<(string, string)>)
    requires DistinctKeys(headers) && forall i :: 0 <= i < |headers| ==> headers[i].0 != k
    ensures var hs := [(k, v)] + headers;
      (forall x :: x in PutAll(hs, []) <==> x in hs) && Get(PutAll(hs, []), k) == Some(v)
  {
    var hs := [(k, v)] + headers;
    PutAllContains(hs, []);
    var m := PutAll(hs, []);
    forall x, y | x in m && y in m && x.0 == y.0
      ensures x == y
    {
      var i :| 0 <= i < |hs| && hs[i] == x;
      var j :| 0 <= j < |hs| && hs[j] == y;
    }
    assert hs[0] in hs;
    GetIs(m, k, v);
  }

  lemma HeadersOfArePut(p: Part)
    requires GoodPart(p)
    ensures forall x :: x in PutAll(HeadersOf(p), []) <==> x in HeadersOf(p)
    ensures Get(PutAll(HeadersOf(p), []), DISPOSITION) == Some(DispositionOf(p))
  {
    FirstHeaderPut(DISPOSITION, DispositionOf(p), p.headers);
  }

  lemma FieldHasNoBreak(key: string, val: string)
    requires '\r' !in key && '\r' !in val
    ensures '\r' !in Field(key, val)
  {
  }

  lemma JoinedHasNoBreak(a: string, b: string)
    requires '\r' !in a && '\r' !in b
    ensures '\r' !in a + (SEMICOLON + b)
  {
  }

  lemma DispositionHasNoBreak(p: Part)
    requires GoodName(p.name) && GoodName(p.filename)
    ensures '\r' !in DispositionOf(p)
  {
    var n, f := Field("name", p.name), Field("filename", p.filename);
    FieldHasNoBreak("name", p.name);
    FieldHasNoBreak("filename", p.filename);
    JoinedHasNoBreak(n, f);
    JoinedHasNoBreak("form-data", if p.filename == "" then n else n + (SEMICOLON + f));
  }

  lemma StripBreak(s: string)
    ensures Strip(CRLF + s) == s
  {
  }

  predicate OnOneLine(h: (string, string)) { '\r' !in h.0 && '\r' !in h.1 && Find(h.0, COLON) == None }

  lemma FirstIsOnOneLine(cd: string)
    requires '\r' !in cd
    ensures OnOneLine((DISPOSITION, cd))
  {
    FreeOf(DISPOSITION, COLON);
  }

  lemma HeadersOfAreGood(p: Part)
    requires GoodPart(p)
    ensures forall i :: 0 <= i < |HeadersOf(p)| ==> OnOneLine(HeadersOf(p)[i])
  {
    DispositionHasNoBreak(p);
    FirstIsOnOneLine(DispositionOf(p));
    forall i | 0 <= i < |p.headers|
      ensures OnOneLine(p.headers[i])
    {
      assert GoodHeader(p.headers[i]);
    }
  }

  lemma PartRoundTrip(p: Part)
    requires GoodPart(p)
    ensures Strip(RenderPart(p)) != ""
    ensures ReadHeaders(Strip(RenderPart(p)), []) == Section(PutAll(HeadersOf(p), []), p.content)
    ensures PartOf(PutAll(HeadersOf(p), []), p.content) == [DataOf(p)]
  {
    var hs := HeadersOf(p);
    StripBreak(RenderHeaders(hs) + (CRLF + (p.content + CRLF)));
    HeadersOfAreGood(p);
    HeadersRoundTrip(hs, [], p.content);
    HeadersOfArePut(p);
    DispositionRoundTrip(p);
  }

  // ---------------------------------------------------------------- the form

  lemma {:induction false} PiecesRoundTrip(ps: seq<Part>)
    requires GoodParts(ps)
    ensures ReadPieces(RenderAll(ps)) == Form(DataOfAll(ps), true)
  {
    if ps != [] {
      PartRoundTrip(ps[0]);
      PiecesRoundTrip(ps[1..]);
      assert RenderAll(ps)[1..] == RenderAll(ps[1..]);
    }
  }

  // Rendering any list of well-formed parts and parsing it gives back the list.
  lemma FormRoundTrip(ps: seq<Part>, bound: string)
    requires GoodParts(ps) && Boundary(bound) && AllEnclosed(RenderAll(ps), bound)
    ensures ReadPieces(Pieces(Body(RenderAll(ps), bound), bound)) == Form(DataOfAll(ps), true)
  {
    var rs := RenderAll(ps);
    PiecesRoundTrip(ps);
    if rs != [] {
      var rest := rs[0] + Body(rs[1..], bound);
      Assoc(bound, rs[0], Body(rs[1..], bound));
      LeadingBoundary(bound, rest);
      PiecesAreParts(rs, bound);
      assert ([""] + rs)[1..] == rs;
    }
  }

  lemma LeadingBoundary(bound: string, rest: string)
    requires bound != ""
    ensures Pieces(bound + rest, bound) == [""] + Pieces(rest, bound)
  {
    FindAtOnce(bound, rest);
    Around("", bound, rest);
    assert "" + (bound + rest) == bound + rest;
  }

  // The condition on the texts, in terms of the parts: no part contains the boundary.
  lemma {:induction false} RenderedAreEnclosed(ps: seq<Part>, bound: string)
    requires forall i :: 0 <= i < |ps| ==> Find(RenderPart(ps[i]), bound) == None
    ensures AllEnclosed(RenderAll(ps), bound)
  {
    if ps != [] {
      RenderedAreEnclosed(ps[1..], bound);
      var rs, r := RenderAll(ps), RenderPart(ps[0]);
      assert r[0] == '\r' && r[|r| - 1] == '\n';
      forall i | 0 <= i < |rs|
        ensures Enclosed(rs[i], bound)
      {
        if i > 0 { assert rs[i] == RenderAll(ps[1..])[i - 1]; }
      }
    }
  }

  // The same from the socket: however the bytes of the rendered form arrive, what __gets returns for the
  // closing boundary parses to the parts.
  lemma ReceivedFormRoundTrip(ps: seq<Part>, bound: string, st: Socket, answers: seq<Answer>, more: string)
    requires GoodParts(ps) && Boundary(bound) && forall i :: 0 <= i < |ps| ==> Find(RenderPart(ps[i]), bound) == None
    requires st.connected && st.rdBuf + Stream(answers) == (Body(RenderAll(ps), bound) + (bound + "--")) + more
    requires forall i :: 0 <= i < |answers| ==> answers[i].Data? || answers[i].NotReady? || answers[i].Again?
    ensures ReadPieces(Pieces(Gets(st, bound + "--", answers).piece, bound)) == Form(DataOfAll(ps), true)
  {
    RenderedAreEnclosed(ps, bound);
    GetsBody(RenderAll(ps), bound, st, answers, more);
    FormRoundTrip(ps, bound);
  }

  lemma GetsBody(rs: seq<string>, bound: string, st: Socket, answers: seq<Answer>, more: string)
    requires Boundary(bound) && AllEnclosed(rs, bound)
    requires st.connected && st.rdBuf + Stream(answers) == (Body(rs, bound) + (bound + "--")) + more
    requires forall i :: 0 <= i < |answers| ==> answers[i].Data? || answers[i].NotReady? || answers[i].Again?
    ensures Gets(st, bound + "--", answers).piece == Body(rs, bound)
  {
    var body, e := Body(rs, bound), bound + "--";
    ClosingIsFirst(rs, bound);
    FindExtends(body + e, more, e);
    GetsDelivers(st, e, answers);
    Assoc(body, e, more);
    Around(body, e, more);
  }

  // ---------------------------------------------------------------- the format itself

  // A rendered part with no headers of its own, literally.
  lemma RenderedLayout(p: Part)
    requires p.headers == []
    ensures var name, file := "name" + ("=" + ("\"" + p.name + "\"")), "filename" + ("=" + ("\"" + p.filename + "\""));
      var disposition := "form-data" + ("; " + if p.filename == "" then name else name + ("; " + file));
      RenderPart(p) == "\r\n" + ((("Content-Disposition" + (": " + disposition)) + ("\r\n" + "")) + ("\r\n" + (p.content + "\r\n")))
  {
    var hs := HeadersOf(p);
    assert hs == [(DISPOSITION, DispositionOf(p))];
    assert RenderHeaders(hs) == (hs[0].0 + (COLON + hs[0].1)) + (CRLF + RenderHeaders(hs[1..]));
  }

  function Glue(ps: seq<string>, bound: string): string {
    if ps == [] then "" else if |ps| == 1 then ps[0] else ps[0] + bound + Glue(ps[1..], bound)
  }

  // The pieces of any text hold no boundary, and with boundaries between them they are the text; a boundary at
  // its very end leaves no piece behind it.
  lemma {:induction false} PiecesGlue(s: string, bound: string)
    requires bound != ""
    ensures var ps := Pieces(s, bound);
      && (forall i :: 0 <= i < |ps| ==> Find(ps[i], bound) == None)
      && (s == Glue(ps, bound) || s == Glue(ps, bound) + bound)
    decreases |s|
  {
    if s != "" && Find(s, bound).Some? {
      var pos := Find(s, bound).value;
      var a, rest := s[..pos], s[pos + |bound|..];
      FirstPieceIs(s, bound, pos);
      PiecesGlue(rest, bound);
      PiecesCut(s, bound, pos);
      var qs := Pieces(rest, bound);
      assert ([a] + qs)[1..] == qs;
      if qs != [] { Assoc(a + bound, Glue(qs, bound), bound); }
    }
  }

  lemma FirstPieceIs(s: string, bound: string, pos: nat)
    requires bound != "" && Find(s, bound) == Some(pos)
    ensures Find(s[..pos], bound) == None && s == s[..pos] + bound + s[pos + |bound|..]
  {
    var a, rest := s[..pos], s[pos + |bound|..];
    FindSpec(s, bound);
    assert s[pos..pos + |bound|] == bound;
    assert s == a + bound + rest && s == a + (bound + rest);
    FindSpec(a, bound);
    if Find(a, bound).Some? { OccursInFront(a, bound + rest, bound, Find(a, bound).value); }
  }

  // Of two header lines with one key the later one counts, and other keys are left alone.
  lemma {:induction false} PutLooks(m: Headers, k: string, v: string, j: string)
    ensures Get(Put(m, k, v), j) == if j == k then Some(v) else Get(m, j)
  {
    if m != [] && m[0].0 != k && !StringLess(k, m[0].0) { PutLooks(m[1..], k, v, j); }
  }

  // A header line without ": " spoils its part, whatever came before it in the part.
  lemma {:induction false} BadLineSpoils(hs: seq<(string, string)>, line: string, rest: string, acc: Headers)
    requires forall i :: 0 <= i < |hs| ==> OnOneLine(hs[i])
    requires line != "" && '\r' !in line && Find(line, COLON) == None
    ensures ReadHeaders(RenderHeaders(hs) + (line + (CRLF + rest)), acc) == BadSection
  {
    var tail := line + (CRLF + rest);
    if hs == [] {
      assert "" + tail == tail;
      LineIsFirst(line, rest);
      HeaderCut(tail, line, rest, acc);
    } else {
      var (k, v) := hs[0];
      assert OnOneLine(hs[0]);
      var first, more := k + (COLON + v), RenderHeaders(hs[1..]);
      Assoc(first, CRLF + more, tail);
      Assoc(CRLF, more, tail);
      HeaderLine(k, v, more + tail, acc);
      BadLineSpoils(hs[1..], line, rest, Put(acc, k, v));
    }
  }

  // A spoilt part ends the form: the parts before it stay, those after it are not read, and it is reported. A
  // part without a disposition line is passed over.
  lemma {:induction false} SpoiltPartEnds(before: seq<string>, piece: string, after: seq<string>)
    requires BadPiece(piece) && ReadPieces(before).ok
    ensures ReadPieces(before + ([piece] + after)) == Form(ReadPieces(before).parts, false)
  {
    if before == [] {
      assert [] + ([piece] + after) == [piece] + after;
    } else {
      var all := before + ([piece] + after);
      assert all[0] == before[0] && all[1..] == before[1..] + ([piece] + after);
      SpoiltPartEnds(before[1..], piece, after);
    }
  }

  lemma UnnamedPartIsPassedOver(piece: string, ss: seq<string>)
    requires Strip(piece) != "" && !BadPiece(piece) && Get(ReadHeaders(Strip(piece), []).headers, "Content-Disposition") == None
    ensures ReadPieces([piece] + ss) == ReadPieces(ss)
  {
    assert ([piece] + ss)[1..] == ss;
    assert [] + ReadPieces(ss).parts == ReadPieces(ss).parts;
  }

  // A value is taken as it stands unless it is longer than two characters and quoted at both ends.
  lemma UnquotedValue(key: string, val: string, flds: seq<string>, name: string, filename: string)
    requires key == "name" || key == "filename"
    requires val != "\"\"" && !(|val| > 2 && val[0] == '\"' && val[|val| - 1] == '\"')
    ensures Names([key + "=" + val] + flds, name, filename)
      == if key == "name" then Names(flds, val, filename) else Names(flds, name, val)
  {
    ValueCut(key, val);
    NamesCut(key + "=" + val, flds, |key|, name, filename);
  }

  lemma ValueCut(key: string, val: string)
    requires key == "name" || key == "filename"
    ensures var f := key + "=" + val; Find(f, "=") == Some(|key|) && f[..|key|] == key && f[|key| + 1..] == val
  {
    FreeOf(key, "=");
    SkipText(key, "=" + val, "=");
    FindAtOnce("=", val);
    assert key + ("=" + val) == key + "=" + val;
    Around(key, "=", val);
  }

  // ---------------------------------------------------------------- what the handlers see

  lemma {:induction false} AssignIs(xs: seq<(string, string)>, params: map<string, string>, k: string)
    requires DistinctKeys(xs)
    ensures (forall v :: (k, v) in xs ==> Lookup(Assign(xs, params), k) == Some(v))
    ensures (forall v :: (k, v) !in xs) ==> Lookup(Assign(xs, params), k) == Lookup(params, k)
  {
    if xs != [] {
      assert xs == [xs[0]] + xs[1..];
      AssignIs(xs[1..], params[xs[0].0 := xs[0].1], k);
      assert xs[0] == (xs[0].0, xs[0].1);
      if k == xs[0].0 {
        forall v
          ensures (k, v) !in xs[1..]
        {
          assert forall j :: 0 <= j < |xs[1..]| ==> xs[1..][j] == xs[j + 1] && xs[j + 1].0 != xs[0].0;
        }
      }
    }
  }

  lemma {:induction false} DerivedContains(name: string, headers: Headers, up: string -> string, h: (string, string))
    requires h in headers
    ensures (name + "_" + up(h.0), h.1) in Derived(name, headers, up)
  {
    if h != headers[0] { DerivedContains(name, headers[1..], up, h); }
  }

  lemma {:induction false} PartAssigns(ps: seq<Part>, up: string -> string, i: nat, x: (string, string))
    requires i < |ps| && x in Assignments(DataOf(ps[i]), up)
    ensures x in AllAssignments(DataOfAll(ps), up)
  {
    assert DataOfAll(ps)[1..] == DataOfAll(ps[1..]);
    if i > 0 { PartAssigns(ps[1..], up, i - 1, x); }
  }

  // Where no two assignments have the same key, every part's content, file name and headers are found in
  // params under their names, and parameters under other names are as before.
  lemma ParametersAreParts(ps: seq<Part>, up: string -> string, params: map<string, string>, i: nat)
    requires i < |ps| && GoodPart(ps[i])
    requires DistinctKeys(AllAssignments(DataOfAll(ps), up))
    ensures var p, r := ps[i], Assign(AllAssignments(DataOfAll(ps), up), params);
      && Lookup(r, p.name) == Some(p.content)
      && (p.filename != "" ==> Lookup(r, p.name + "_FILENAME") == Some(p.filename))
      && (forall h :: h in p.headers ==> Lookup(r, p.name + "_" + up(h.0)) == Some(h.1))
    ensures var xs := AllAssignments(DataOfAll(ps), up);
      forall k :: (forall v :: (k, v) !in xs) ==> Lookup(Assign(xs, params), k) == Lookup(params, k)
  {
    var p, xs := ps[i], AllAssignments(DataOfAll(ps), up);
    var d := DataOf(p);
    PartAssigns(ps, up, i, (p.name, p.content));
    AssignIs(xs, params, p.name);
    if p.filename != "" {
      PartAssigns(ps, up, i, (p.name + "_FILENAME", p.filename));
      AssignIs(xs, params, p.name + "_FILENAME");
    }
    forall k | forall v :: (k, v) !in xs
      ensures Lookup(Assign(xs, params), k) == Lookup(params, k)
    {
      AssignIs(xs, params, k);
    }
    HeadersOfArePut(p);
    forall h | h in p.headers
      ensures Lookup(Assign(xs, params), p.name + "_" + up(h.0)) == Some(h.1)
    {
      assert h in HeadersOf(p);
      DerivedContains(p.name, d.headers, up, h);
      PartAssigns(ps, up, i, (p.name + "_" + up(h.0), h.1));
      AssignIs(xs, params, p.name + "_" + up(h.0));
    }
  }

  // ---------------------------------------------------------------- the object

  lemma {:induction false} AssignAppend(xs: seq<(string, string)>, ys: seq<(string, string)>, params: map<string, string>)
    ensures Assign(xs + ys, params) == Assign(ys, Assign(xs, params))
  {
    if xs == [] {
      assert xs + ys == ys;
    } else {
      assert (xs + ys)[0] == xs[0] && (xs + ys)[1..] == xs[1..] + ys;
      AssignAppend(xs[1..], ys, params[xs[0].0 := xs[0].1]);
    }
  }

  lemma OnePartAssigns(headers: Headers, content: string, more: seq<PartData>, up: string -> string, params: map<string, string>)
    ensures Assign(AllAssignments(PartOf(headers, content) + more, up), params)
      == Assign(AllAssignments(more, up), Assign(AllAssignments(PartOf(headers, content), up), params))
  {
    var ps := PartOf(headers, content);
    if ps == [] {
      assert ps + more == more;
    } else {
      assert (ps + more)[1..] == more && ps[1..] == [];
      var xs := Assignments(ps[0], up);
      assert AllAssignments(ps, up) == xs + [] == xs;
      AssignAppend(xs, AllAssignments(more, up), params);
    }
  }

  predicate BadPiece(piece: string) { Strip(piece) != "" && ReadHeaders(Strip(piece), []).BadSection? }

  function PieceParts(piece: string): seq<PartData> {
    if Strip(piece) == "" || BadPiece(piece) then []
    else
      var r := ReadHeaders(Strip(piece), []);
      PartOf(r.headers, r.content)
  }

  lemma ReadPiecesStep(piece: string, ss: seq<string>, up: string -> string, params: map<string, string>)
    ensures var f, g := ReadPieces([piece] + ss), ReadPieces(ss);
      && f.ok == (!BadPiece(piece) && g.ok)
      && Assign(AllAssignments(f.parts, up), params)
        == (if BadPiece(piece) then params
            else Assign(AllAssignments(g.parts, up), Assign(AllAssignments(PieceParts(piece), up), params)))
  {
    assert ([piece] + ss)[1..] == ss;
    if Strip(piece) != "" && !BadPiece(piece) {
      var r := ReadHeaders(Strip(piece), []);
      OnePartAssigns(r.headers, r.content, ReadPieces(ss).parts, up, params);
    }
  }

  method SplitFields(disposition: string) returns (flds: seq<string>)
    ensures flds == Fields(disposition)
  {
    var cd := disposition;
    flds := [];
    while cd != ""
      invariant flds + Fields(cd) == Fields(disposition)
      decreases |cd|
    {
      match Find(cd, SEMICOLON)
      case None =>
        flds := flds + [cd];
        cd := "";
      case Some(ps) =>
        assert flds + Fields(cd) == flds + [cd[..ps]] + Fields(cd[ps + 2..]);
        flds := flds + [cd[..ps]];
        cd := cd[ps + 2..];
    }
  }

  method ReadNames(flds: seq<string>) returns (name: string, filename: string)
    ensures (name, filename) == Names(flds, "", "")
  {
    name, filename := "", "";
    var i := 0;
    while i < |flds|
      invariant i <= |flds| && Names(flds[i..], name, filename) == Names(flds, "", "")
    {
      var p := Find(flds[i], "=");
      if p.Some? {
        var key, val := flds[i][..p.value], Unquote(flds[i][p.value + 1..]);
        if key == "name" { name := val; }
        if key == "filename" { filename := val; }
      }
      i := i + 1;
    }
  }

  method ReadSection(text: string) returns (r: Section)
    ensures r == ReadHeaders(text, [])
  {
    var s, lparams := text, [];
    while true
      invariant ReadHeaders(s, lparams) == ReadHeaders(text, [])
      decreases |s|
    {
      var pp := Find(s, CRLF);
      if pp == None { return BadSection; }
      var line := s[..pp.value];
      s := s[pp.value + 2..];
      if line == "" {
        return Section(lparams, if |s| >= 2 then s[..|s| - 2] else s);
      }
      var pz := Find(line, COLON);
      if pz == None { return BadSection; }
      assert WithLine(line, lparams) == Some(Put(lparams, line[..pz.value], line[pz.value + 2..]));
      lparams := Put(lparams, line[..pz.value], line[pz.value + 2..]);
    }
  }

  method FirstPiece(sbuf: string, bound: string) returns (piece: string, rest: string)
    requires bound != "" && sbuf != ""
    ensures Pieces(sbuf, bound) == [piece] + Pieces(rest, bound) && |rest| < |sbuf|
  {
    match Find(sbuf, bound)
    case None =>
      piece, rest := sbuf, "";
    case Some(pos) =>
      piece, rest := sbuf[..pos], sbuf[pos + |bound|..];
  }

  class FormReader {
    const up: string -> string
    var params: map<string, string>

    constructor (up: string -> string)
      ensures params == map[] && this.up == up
    {
      this.up := up;
      params := map[];
    }

    method StorePart(headers: Headers, content: string)
      modifies this
      ensures params == Assign(AllAssignments(PartOf(headers, content), up), old(params))
    {
      var cd := Get(headers, DISPOSITION);
      if cd == None { return; }
      var flds := SplitFields(cd.value);
      var name, filename := ReadNames(flds);
      ghost var part := PartData(name, filename, headers, content);
      assert PartOf(headers, content) == [part];
      assert AllAssignments([part], up) == Assignments(part, up) + [] == Assignments(part, up);
      var all := Assignments(PartData(name, filename, headers, content), up);
      var i := 0;
      while i < |all|
        invariant i <= |all| && Assign(all[i..], params) == Assign(all, old(params))
      {
        params := params[all[i].0 := all[i].1];
        i := i + 1;
      }
    }

    method ReadPiece(piece: string) returns (ok: bool)
      modifies this
      ensures ok == !BadPiece(piece)
      ensures params == Assign(AllAssignments(PieceParts(piece), up), old(params))
    {
      var s := Strip(piece);
      if s == "" { return true; }
      var r := ReadSection(s);
      if r.BadSection? { return false; }
      StorePart(r.headers, r.content);
      ok := true;
    }

    method ReadForm(text: string, bound: string) returns (ok: bool)
      requires bound != ""
      modifies this
      ensures var f := ReadPieces(Pieces(text, bound));
        ok == f.ok && params == Assign(AllAssignments(f.parts, up), old(params))
    {
      var sbuf := text;
      ghost var all := ReadPieces(Pieces(text, bound));
      ghost var final := Assign(AllAssignments(all.parts, up), params);
      while sbuf != ""
        invariant ReadPieces(Pieces(sbuf, bound)).ok == all.ok
        invariant Assign(AllAssignments(ReadPieces(Pieces(sbuf, bound)).parts, up), params) == final
        decreases |sbuf|
      {
        var piece, rest := FirstPiece(sbuf, bound);
        ReadPiecesStep(piece, Pieces(rest, bound), up, params);
        sbuf := rest;
        ok := ReadPiece(piece);
        if !ok { return; }
      }
      ok := true;
    }
  }
}
