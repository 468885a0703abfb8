/**
 * Pulling the user's identity out of an incoming request, and copying it onto the
 * session. A request is reduced to its query parameters, headers, JSON body and URL
 * path; all values are strings and "falsy" means absent or empty.
 */
module UserData {
  import opened Wrappers
  import opened Text

  /** An incoming request; `body` is `None` when the request carries no JSON body. */
  datatype Request = Request(
    query: map<string, string>,
    headers: map<string, string>,
    body: Option<map<string, string>>,
    path: string)

  /** `m.get(k)`. */
  function Lookup(m: map<string, string>, k: string): Option<string>
  {
    if k in m then Some(m[k]) else None
  }

  /** `hasattr(request, 'json') and request.json`, with `json` read as the decoded body: the body, when non-empty. */
  function Body(req: Request): Option<map<string, string>>
  {
    if req.body.Some? && |req.body.value| > 0 then req.body else None
  }

  /** The first index at or after `j` holding '/', or the end of `p`. */
  function SegmentEnd(p: string, j: nat): (r: nat)
    requires j <= |p|
    decreases |p| - j
    ensures j <= r <= |p| && (r == |p| || p[r] == '/')
    ensures forall m :: j <= m < r ==> p[m] != '/'
  {
    if j == |p| || p[j] == '/' then j else SegmentEnd(p, j + 1)
  }

  const UserPrefix: string := "/user/"

  /** `/user/([^/]+)` tried at position `i`: its group. */
  function PathMatchAt(p: string, i: nat): (r: Option<string>)
    requires i <= |p|
    ensures r.Some? ==> r.value != []
  {
    if StartsAt(p, i, UserPrefix) && i + |UserPrefix| < |p| && p[i + |UserPrefix|] != '/'
    then Some(p[i + |UserPrefix|..SegmentEnd(p, i + |UserPrefix|)])
    else None
  }

  /** The whole path segment `seg` follows a `/user/` at position `i`. */
  predicate SegmentAfterUser(p: string, i: nat, seg: string) {
    StartsAt(p, i, UserPrefix + seg) && seg != [] && '/' !in seg
    && (i + |UserPrefix| + |seg| == |p| || p[i + |UserPrefix| + |seg|] == '/')
  }

  lemma PathMatchAtShape(p: string, i: nat)
    requires i <= |p|
    ensures PathMatchAt(p, i).Some? <==> StartsAt(p, i, UserPrefix) && i + |UserPrefix| < |p| && p[i + |UserPrefix|] != '/'
    ensures PathMatchAt(p, i).Some? ==> SegmentAfterUser(p, i, PathMatchAt(p, i).value)
  {
    if PathMatchAt(p, i).Some? {
      var seg := PathMatchAt(p, i).value;
      var e := SegmentEnd(p, i + |UserPrefix|);
      assert p[i..i + |UserPrefix| + |seg|] == p[i..i + |UserPrefix|] + seg;
      assert '/' !in seg by {
        forall m | 0 <= m < |seg| ensures seg[m] != '/' {
          assert seg[m] == p[i + |UserPrefix| + m];
        }
      }
    }
  }

  /** What `/user/([^/]+)` captures at each start position of `p`, the end included. */
  function PathMatches(p: string): (r: seq<Option<string>>)
    ensures |r| == |p| + 1
    ensures forall k :: 0 <= k <= |p| ==> r[k] == PathMatchAt(p, k)
  {
    seq(|p| + 1, k requires 0 <= k <= |p| => PathMatchAt(p, k))
  }

  /** `re.search(r'/user/([^/]+)', path)` from position `i`: the leftmost match. */
  function PathSearch(p: string, i: nat): (r: Option<string>)
    requires i <= |p|
    ensures r.Some? ==> exists k :: i <= k <= |p| && PathMatchAt(p, k) == r
                                    && forall j :: i <= j < k ==> PathMatchAt(p, j).None?
    ensures r.None? ==> forall k :: i <= k <= |p| ==> PathMatchAt(p, k).None?
    ensures r.Some? ==> r.value != []
  {
    var ms := PathMatches(p);
    var r := FirstMatch(ms, i);
    assert r.Some? ==> exists k :: i <= k < |ms| && ms[k] == r && forall j :: i <= j < k ==> ms[j].None?;
    r
  }

  /** The user id carried by the URL path. */
  function PathUserId(path: string): Option<string>
  {
    PathSearch(path, 0)
  }

  /** Every `/user/` before position `i` is followed by another '/' or ends the path. */
  predicate NoSegmentBefore(path: string, i: nat) {
    forall j: nat :: j < i && j + |UserPrefix| < |path| && StartsAt(path, j, UserPrefix) ==> path[j + |UserPrefix|] == '/'
  }

  /** The path id is the whole non-empty segment after the first `/user/` that has one; there
      is none only when every `/user/` is followed by another '/' or ends the path. */
  lemma PathUserIdShape(path: string)
    ensures PathUserId(path).Some? ==>
      exists i: nat :: SegmentAfterUser(path, i, PathUserId(path).value) && NoSegmentBefore(path, i)
    ensures PathUserId(path).None? <==>
      forall i: nat :: i + |UserPrefix| < |path| && StartsAt(path, i, UserPrefix) ==> path[i + |UserPrefix|] == '/'
  {
    var r := PathUserId(path);
    if r.Some? {
      var k :| 0 <= k <= |path| && PathMatchAt(path, k) == r && forall j :: 0 <= j < k ==> PathMatchAt(path, j).None?;
      PathMatchAtShape(path, k);
      forall j: nat | j < k && j + |UserPrefix| < |path| && StartsAt(path, j, UserPrefix)
        ensures path[j + |UserPrefix|] == '/'
      {
        PathMatchAtShape(path, j);
      }
      assert SegmentAfterUser(path, k, r.value) && NoSegmentBefore(path, k);
    } else {
      forall i: nat | i + |UserPrefix| < |path| && StartsAt(path, i, UserPrefix)
        ensures path[i + |UserPrefix|] == '/'
      {
        PathMatchAtShape(path, i);
      }
    }
  }

  /** The four places a user id may come from, in the order they are tried. */
  function IdSources(req: Request): seq<Option<string>>
  {
    [Lookup(req.query, "user_id"),
     Lookup(req.headers, "X-User-ID"),
     if Body(req).Some? then Lookup(Body(req).value, "user_id") else None,
     PathUserId(req.path)]
  }

  /** The first truthy candidate. */
  function FirstTruthy(cands: seq<Option<string>>): (r: Option<string>)
    ensures r.Some? ==> r in cands && Truthy(r)
    ensures r.None? <==> forall c :: c in cands ==> !Truthy(c)
  {
    if |cands| == 0 then None
    else if Truthy(cands[0]) then cands[0]
    else FirstTruthy(cands[1..])
  }

  /** `extract_user_id_from_request`. */
  function ExtractUserId(req: Request): (r: Option<string>)
    ensures r.Some? ==> r.value != ""
  {
    var q := Lookup(req.query, "user_id");
    if Truthy(q) then q
    else
      var h := Lookup(req.headers, "X-User-ID");
      if Truthy(h) then h
      else
        var b := if Body(req).Some? then Lookup(Body(req).value, "user_id") else None;
        if Truthy(b) then b
        else
          PathUserId(req.path)
  }

  /** The nested tests try the sources in order and return the first truthy one. */
  lemma ExtractUserIdIsFirstTruthy(req: Request)
    ensures ExtractUserId(req) == FirstTruthy(IdSources(req))
    ensures ExtractUserId(req).None? <==> forall c :: c in IdSources(req) ==> !Truthy(c)
  {
    var s := IdSources(req);
    assert s == [s[0]] + ([s[1]] + ([s[2]] + ([s[3]] + [])));
    FirstTruthyCons(s[3], []);
    FirstTruthyCons(s[2], [s[3]]);
    FirstTruthyCons(s[1], [s[2], s[3]]);
    FirstTruthyCons(s[0], [s[1], s[2], s[3]]);
  }

  lemma FirstTruthyCons(c: Option<string>, rest: seq<Option<string>>)
    ensures FirstTruthy([c] + rest) == if Truthy(c) then c else FirstTruthy(rest)
  {
    assert ([c] + rest)[1..] == rest;
  }

  /**
   * `extract_user_id_from_request` as written, for the web framework's request object:
   * there `request.json` is a method, so it passes the truthiness test and
   * `request.json.get` raises, which the handler catches by returning `None`. The body
   * and the path are never reached.
   */
  function ExtractUserIdAsWritten(req: Request): (r: Option<string>)
    ensures r.Some? ==> r.value != ""
    ensures r.Some? <==> Truthy(Lookup(req.query, "user_id")) || Truthy(Lookup(req.headers, "X-User-ID"))
  {
    var q := Lookup(req.query, "user_id");
    if Truthy(q) then q
    else
      var h := Lookup(req.headers, "X-User-ID");
      if Truthy(h) then h else None
  }

  /** Whenever the code as written finds an id, it is the one the corrected extractor finds. */
  lemma ExtractUserIdAsWrittenAgrees(req: Request)
    ensures ExtractUserIdAsWritten(req).Some? ==> ExtractUserIdAsWritten(req) == ExtractUserId(req)
    ensures ExtractUserIdAsWritten(req).None? ==>
      ExtractUserId(req) == (if Body(req).Some? && Truthy(Lookup(Body(req).value, "user_id"))
                             then Lookup(Body(req).value, "user_id") else PathUserId(req.path))
  {
  }

  /** A request that carries its user id only in the path. */
  const PathOnlyRequest: Request := Request(map[], map[], None, "/user/u1")

  /** The path id is unreachable as written: the corrected extractor finds `u1`, the code finds nothing. */
  lemma PathIdUnreachableAsWritten()
    ensures ExtractUserIdAsWritten(PathOnlyRequest) == None
    ensures ExtractUserId(PathOnlyRequest) == Some("u1")
  {
    var p := PathOnlyRequest.path;
    assert StartsAt(p, 0, UserPrefix);
    assert SegmentEnd(p, 8) == 8;
    assert p[7] != '/' && SegmentEnd(p, 7) == 8;
    assert p[6] != '/' && SegmentEnd(p, 6) == 8;
    assert PathMatchAt(p, 0) == Some(p[6..8]);
    assert p[6..8] == "u1";
  }

  /** The six keys gathered from a request. */
  const DataKeys: seq<string> := ["user_id", "user_name", "school_id", "school_name", "grade", "class"]

  /** The header that may stand in for a key: only the id and the name have one. */
  function HeaderFor(k: string): Option<string>
  {
    if k == "user_id" then Some("X-User-ID")
    else if k == "user_name" then Some("X-User-Name")
    else None
  }

  /** The dictionary being built, `None` values included. */
  type Gathered = map<string, Option<string>>

  /** `user_data.get(k)`. */
  function Get(m: Gathered, k: string): Option<string>
  {
    if k in m then m[k] else None
  }

  /** All six keys, straight from the query string (missing ones as `None`). */
  function QueryStage(query: map<string, string>): (r: Gathered)
    ensures forall k :: k in r <==> k in DataKeys
    ensures forall k :: k in DataKeys ==> Get(r, k) == Lookup(query, k)
  {
    map k | k in DataKeys :: Lookup(query, k)
  }

  /** The id and the name, when still falsy, are replaced by their headers (`None` if absent). */
  function HeaderStage(m: Gathered, headers: map<string, string>): (r: Gathered)
    ensures forall k :: k in r <==> k in m || HeaderFor(k).Some?
    ensures forall k :: Get(r, k) ==
              if HeaderFor(k).Some? && !Truthy(Get(m, k)) then Lookup(headers, HeaderFor(k).value) else Get(m, k)
  {
    var m1 := if !Truthy(Get(m, "user_id")) then m["user_id" := Lookup(headers, "X-User-ID")] else m;
    if !Truthy(Get(m1, "user_name")) then m1["user_name" := Lookup(headers, "X-User-Name")] else m1
  }

  /** For each of `keys`, a still-falsy entry takes a truthy body value; nothing else changes. */
  function BodyStage(m: Gathered, body: map<string, string>, keys: seq<string>): (r: Gathered)
    ensures forall k :: k in r <==> k in m || (k in keys && Truthy(Lookup(body, k)))
    ensures forall k :: Get(r, k) ==
              if k in keys && !Truthy(Get(m, k)) && Truthy(Lookup(body, k)) then Lookup(body, k) else Get(m, k)
    decreases |keys|
  {
    if |keys| == 0 then m
    else
      var k := keys[0];
      var m1 := if !Truthy(Get(m, k)) && Truthy(Lookup(body, k)) then m[k := Lookup(body, k)] else m;
      BodyStage(m1, body, keys[1..])
  }

  /** The six keys whose gathered value is not `None`, with their values. */
  function Defined(m: Gathered): (r: map<string, string>)
    ensures forall k :: k in r <==> k in DataKeys && Get(m, k).Some?
    ensures forall k :: k in r ==> r[k] == Get(m, k).value
  {
    map k | k in DataKeys && Get(m, k).Some? :: Get(m, k).value
  }

  lemma DefinedAgrees(m: Gathered, m': Gathered)
    requires forall k :: k in DataKeys ==> Get(m, k) == Get(m', k)
    ensures Defined(m) == Defined(m')
  {
  }

  /** `extract_user_data_from_request`: query first, then the two headers, then the body; `None` values dropped. */
  function ExtractUserData(req: Request): (r: map<string, string>)
    ensures forall k :: k in r ==> k in DataKeys
  {
    var m := HeaderStage(QueryStage(req.query), req.headers);
    var m2 := if Body(req).Some? then BodyStage(m, Body(req).value, DataKeys) else m;
    Defined(m2)
  }

  /** Every one of the six keys holds a non-empty value. */
  predicate AllTruthy(m: Gathered) {
    forall k :: k in DataKeys ==> Truthy(Get(m, k))
  }

  /**
   * `extract_user_data_from_request` as written, for the web framework's request object:
   * `request.json` is a method, so the body loop calls `.get` on it at the first key
   * still falsy after the query and the headers, which raises, and the handler returns
   * `{}`. Only when all six keys are already filled does the loop call nothing.
   */
  function ExtractUserDataAsWritten(req: Request): (r: map<string, string>)
    ensures r != map[] <==> AllTruthy(HeaderStage(QueryStage(req.query), req.headers))
    ensures r != map[] ==> forall k :: k in DataKeys ==> k in r && r[k] != ""
    ensures forall k :: k in r ==> k in DataKeys
  {
    var m := HeaderStage(QueryStage(req.query), req.headers);
    if !AllTruthy(m) then map[]
    else
      var r := Defined(m);
      assert "user_id" in DataKeys && "user_id" in r;
      r
  }

  /** The value gathered for `k` before `None` values are dropped. */
  function Gather(req: Request, k: string): Option<string>
  {
    var m := HeaderStage(QueryStage(req.query), req.headers);
    var m2 := if Body(req).Some? then BodyStage(m, Body(req).value, DataKeys) else m;
    Get(m2, k)
  }

  lemma ExtractUserDataIsGather(req: Request, k: string)
    requires k in DataKeys
    ensures k in ExtractUserData(req) <==> Gather(req, k).Some?
    ensures k in ExtractUserData(req) ==> ExtractUserData(req)[k] == Gather(req, k).value
  {
    var m := HeaderStage(QueryStage(req.query), req.headers);
    assert k in m;
  }

  /**
   * The precedence of the sources for one key: a truthy query value wins; otherwise,
   * for the id and the name only, a truthy header; otherwise a truthy body value. When
   * no source is truthy the key survives only with an empty value, taken from the last
   * source consulted (the header for the id and the name, the query otherwise).
   */
  lemma ExtractUserDataPrecedence(req: Request, k: string)
    requires k in DataKeys
    ensures var r := ExtractUserData(req);
      var q := Lookup(req.query, k);
      var h := if HeaderFor(k).Some? then Lookup(req.headers, HeaderFor(k).value) else None;
      var b := if Body(req).Some? then Lookup(Body(req).value, k) else None;
      && (Truthy(q) ==> k in r && r[k] == q.value)
      && (!Truthy(q) && Truthy(h) ==> k in r && r[k] == h.value)
      && (!Truthy(q) && !Truthy(h) && Truthy(b) ==> k in r && r[k] == b.value)
      && (!Truthy(q) && !Truthy(h) && !Truthy(b) ==>
            (k in r <==> (if HeaderFor(k).Some? then h.Some? else q.Some?)) && (k in r ==> r[k] == ""))
  {
    ExtractUserDataIsGather(req, k);
    var m0 := QueryStage(req.query);
    var m := HeaderStage(m0, req.headers);
    assert Get(m0, k) == Lookup(req.query, k);
    var m2 := if Body(req).Some? then BodyStage(m, Body(req).value, DataKeys) else m;
    assert Gather(req, k) == Get(m2, k);
  }

  /** When the query and the headers fill every key, the code as written agrees with the corrected extractor. */
  lemma ExtractUserDataAsWrittenAgrees(req: Request)
    requires AllTruthy(HeaderStage(QueryStage(req.query), req.headers))
    ensures ExtractUserDataAsWritten(req) == ExtractUserData(req)
  {
    var m := HeaderStage(QueryStage(req.query), req.headers);
    if Body(req).Some? {
      var m2 := BodyStage(m, Body(req).value, DataKeys);
      forall k | k in DataKeys ensures Get(m, k) == Get(m2, k) {
        assert Truthy(Get(m, k));
      }
      DefinedAgrees(m, m2);
    }
  }

  /** A request that gives only its user id, in the query string. */
  const QueryIdRequest: Request := Request(map["user_id" := "u1"], map[], None, "/")

  /** As written, the missing name makes the extraction fail as a whole; corrected, the id survives. */
  lemma PartialDataLostAsWritten()
    ensures ExtractUserDataAsWritten(QueryIdRequest) == map[]
    ensures "user_id" in ExtractUserData(QueryIdRequest) && ExtractUserData(QueryIdRequest)["user_id"] == "u1"
  {
    var m := HeaderStage(QueryStage(QueryIdRequest.query), QueryIdRequest.headers);
    assert "user_name" in DataKeys && !Truthy(Get(m, "user_name"));
    ExtractUserDataPrecedence(QueryIdRequest, "user_id");
  }

  /** Headers never affect the four keys that have no header. */
  lemma HeadersOnlyFillIdAndName(req: Request, headers: map<string, string>, k: string)
    requires k in DataKeys && k != "user_id" && k != "user_name"
    ensures var r1, r2 := ExtractUserData(req), ExtractUserData(req.(headers := headers));
      (k in r1 <==> k in r2) && (k in r1 ==> r1[k] == r2[k])
  {
    var req' := req.(headers := headers);
    var m0 := QueryStage(req.query);
    HeaderStageKeeps(m0, req.headers, k);
    HeaderStageKeeps(m0, headers, k);
    GatherAt(req, req', k);
    ExtractUserDataIsGather(req, k);
    ExtractUserDataIsGather(req', k);
  }

  /** Two requests with the same body that agree on `k` after the query and the headers gather the same for `k`. */
  lemma GatherAt(req: Request, req': Request, k: string)
    requires Body(req) == Body(req')
    requires Get(HeaderStage(QueryStage(req.query), req.headers), k) == Get(HeaderStage(QueryStage(req'.query), req'.headers), k)
    ensures Gather(req, k) == Gather(req', k)
  {
    var m, m' := HeaderStage(QueryStage(req.query), req.headers), HeaderStage(QueryStage(req'.query), req'.headers);
    if Body(req).Some? {
      BodyStageAt(m, m', Body(req).value, DataKeys, k);
    }
  }

  /** The header stage leaves the keys without a header alone. */
  lemma HeaderStageKeeps(m: Gathered, headers: map<string, string>, k: string)
    requires HeaderFor(k).None?
    ensures Get(HeaderStage(m, headers), k) == Get(m, k)
  {
  }

  /** What the body stage gathers for `k` depends only on what was gathered for `k` before. */
  lemma BodyStageAt(m: Gathered, m': Gathered, body: map<string, string>, keys: seq<string>, k: string)
    requires Get(m, k) == Get(m', k)
    ensures Get(BodyStage(m, body, keys), k) == Get(BodyStage(m', body, keys), k)
  {
  }

  /** When the gathered data has a non-empty id, it is the id the single-id extractor finds. */
  lemma ExtractorsAgreeOnId(req: Request)
    requires "user_id" in ExtractUserData(req) && ExtractUserData(req)["user_id"] != ""
    ensures ExtractUserId(req) == Some(ExtractUserData(req)["user_id"])
  {
    ExtractUserDataPrecedence(req, "user_id");
  }

  /**
   * `set_user_data_to_session_context` on the session's attributes: every key whose
   * value is truthy (the id included) is set, every other attribute is kept.
   */
  function SetUserDataToSession(attrs: map<string, string>, data: map<string, string>): (r: map<string, string>)
    ensures forall k :: k in data && data[k] != "" ==> k in r && r[k] == data[k]
    ensures forall k :: !(k in data && data[k] != "") ==> (k in r <==> k in attrs) && (k in r ==> r[k] == attrs[k])
  {
    var a1 := if Truthy(Lookup(data, "user_id")) then attrs["user_id" := data["user_id"]] else attrs;
    a1 + map k | k in data && k != "user_id" && data[k] != "" :: data[k]
  }
}
