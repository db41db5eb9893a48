/** The Microsoft Graph helpers: a caller that refreshes its token and
    retries once when a request is answered 401, a paginated GET that
    follows `@odata.nextLink`, the mail-folder map builder that walks a
    user's folder tree with an explicit stack, and the folder path
    builder. The Graph service is given as data: the status code a
    request gets with a given token, the page each URL serves, and a rank
    on URLs under which every next link is smaller (that is, every chain
    of next links ends). Tokens are numbered by the order in which the
    token creator hands them out. */
module MsGraph {
  import opened Wrappers

  datatype Verb = GET | HEAD

  /** A page of a paginated answer: its `value` and its next link. */
  datatype Page<T> = Page(value: seq<T>, nextLink: Option<string>)

  datatype Server<T> = Server(status: (Verb, string, nat) -> int, page: string -> Page<T>, rank: string -> nat)

  /** Every chain of next links ends. */
  ghost predicate Finite<T>(server: Server<T>) {
    forall u :: server.page(u).nextLink.Some? ==> server.rank(server.page(u).nextLink.value) < server.rank(u)
  }

  /** `raise_for_status` raises for client and server errors. */
  predicate Failed(status: int) {
    400 <= status < 600
  }

  const Unauthorized: int := 401

  const GraphRoot: string := "https://graph.microsoft.com/v1.0/"

  const Users: string := "users/"

  const MailFolders: string := "/mailFolders"

  const ChildFolders: string := "/childFolders"

  const FolderQuery: string := "?$select=id,parentFolderId,displayName,childFolderCount&$top="

  function GraphUrl(tail: string): string {
    GraphRoot + tail
  }

  /** How a request ended under the retry policy: the status of the last
      answer, the number of raw requests, and the token state after. */
  datatype Attempted = Attempted(status: int, calls: nat, token: nat, issued: nat)

  /** The single-retry-on-401 policy shared by `get`, `head` and
      `follow_next_link`, from token `token` with `issued` tokens handed
      out so far. */
  function Attempt<T>(server: Server<T>, verb: Verb, url: string, token: nat, issued: nat, retry: bool): (a: Attempted)
    ensures 1 <= a.calls <= 2 && (retry ==> a.calls == 1)
    ensures a.calls == 2 <==> !retry && server.status(verb, url, token) == Unauthorized
    ensures a.calls == 1 ==> a.status == server.status(verb, url, token) && a.token == token && a.issued == issued
    ensures a.calls == 2 ==> a.status == server.status(verb, url, issued) && a.token == issued && a.issued == issued + 1
    decreases if retry then 0 else 1
  {
    var s := server.status(verb, url, token);
    if s == Unauthorized && !retry then
      var b := Attempt(server, verb, url, issued, issued + 1, true);
      b.(calls := b.calls + 1)
    else
      Attempted(s, 1, token, issued)
  }

  /** What the policy promises: a 401 is retried once with a fresh token
      and no more; an error other than 401 is raised at once; a 401 that
      escapes is the answer to the retry; success is success on the first
      or the second request. */
  lemma SingleRetryOn401<T>(server: Server<T>, verb: Verb, url: string, token: nat, issued: nat)
    ensures var a := Attempt(server, verb, url, token, issued, false);
      (a.status == Unauthorized ==> a.calls == 2 && server.status(verb, url, token) == Unauthorized) &&
      (Failed(server.status(verb, url, token)) && server.status(verb, url, token) != Unauthorized ==>
         a.calls == 1 && a.status == server.status(verb, url, token)) &&
      (!Failed(a.status) <==>
         !Failed(server.status(verb, url, token)) ||
         (server.status(verb, url, token) == Unauthorized && !Failed(server.status(verb, url, issued))))
  {
  }

  /** The answer of a GET: the page, or the status raised. */
  function Answer<T>(server: Server<T>, url: string, status: int): Result<Page<T>, int> {
    if Failed(status) then Err(status) else Ok(server.page(url))
  }

  /** The items of the page at `url` and of every page after it. */
  function Items<T>(server: Server<T>, url: string): seq<T>
    requires Finite(server)
    decreases server.rank(url)
  {
    var p := server.page(url);
    p.value + (if p.nextLink.Some? then Items(server, p.nextLink.value) else [])
  }

  /** What a paginated GET gets from `url` on: the items yielded, the
      status raised if any, the token state after, and the raw requests
      sent. */
  datatype Fetched<T> = Fetched(items: seq<T>, raised: Option<int>, token: nat, issued: nat, calls: nat)

  /** The GET of `url` under the retry policy, then the pages after it:
      at least one request is sent, tokens are only ever added, and only
      an HTTP error is raised. */
  function Paginate<T>(server: Server<T>, url: string, token: nat, issued: nat): (f: Fetched<T>)
    requires Finite(server)
    ensures f.calls >= 1 && f.issued >= issued
    ensures f.raised.Some? ==> Failed(f.raised.value)
    ensures Failed(server.status(GET, url, token)) && server.status(GET, url, token) != Unauthorized ==>
      f == Fetched([], Some(server.status(GET, url, token)), token, issued, 1)
    decreases server.rank(url), 1
  {
    var a := Attempt(server, GET, url, token, issued, false);
    if Failed(a.status) then Fetched([], Some(a.status), a.token, a.issued, a.calls)
    else
      var r := FollowFrom(server, url, a.token, a.issued);
      Fetched(server.page(url).value + r.items, r.raised, r.token, r.issued, a.calls + r.calls)
  }

  /** The pages after the one at `url`: no request at all exactly when it
      has no next link. */
  function FollowFrom<T>(server: Server<T>, url: string, token: nat, issued: nat): (f: Fetched<T>)
    requires Finite(server)
    ensures f.calls == 0 <==> server.page(url).nextLink.None?
    ensures f.calls == 0 ==> f == Fetched([], None, token, issued, 0)
    ensures f.issued >= issued
    ensures f.raised.Some? ==> Failed(f.raised.value)
    decreases server.rank(url), 0
  {
    var p := server.page(url);
    if p.nextLink.None? then Fetched([], None, token, issued, 0)
    else Paginate(server, p.nextLink.value, token, issued)
  }

  /** What is yielded is a prefix of the items; all of them when nothing
      is raised; and only an HTTP error is raised. */
  lemma {:induction false} PaginatePrefix<T>(server: Server<T>, url: string, token: nat, issued: nat)
    requires Finite(server)
    ensures var f := Paginate(server, url, token, issued);
      |f.items| <= |Items(server, url)| && f.items == Items(server, url)[..|f.items|] &&
      (f.raised.None? ==> f.items == Items(server, url)) &&
      (f.raised.Some? ==> Failed(f.raised.value))
    decreases server.rank(url)
  {
    var a := Attempt(server, GET, url, token, issued, false);
    var p := server.page(url);
    if !Failed(a.status) && p.nextLink.Some? {
      PaginatePrefix(server, p.nextLink.value, a.token, a.issued);
      var r := Paginate(server, p.nextLink.value, a.token, a.issued);
      var rest := Items(server, p.nextLink.value);
      assert (p.value + rest)[..|p.value + r.items|] == p.value + rest[..|r.items|];
    }
  }

  /** A service that never answers with an error yields every item and
      never refreshes the token: one request per page. */
  lemma {:induction false} PaginateWithoutErrors<T>(server: Server<T>, url: string, token: nat, issued: nat)
    requires Finite(server)
    requires forall u, k :: !Failed(server.status(GET, u, k))
    ensures var f := Paginate(server, url, token, issued);
      f.raised.None? && f.items == Items(server, url) && f.token == token && f.issued == issued &&
      f.calls == Pages(server, url)
    decreases server.rank(url)
  {
    var p := server.page(url);
    if p.nextLink.Some? {
      PaginateWithoutErrors(server, p.nextLink.value, token, issued);
    }
  }

  /** The number of pages from `url` on. */
  function Pages<T>(server: Server<T>, url: string): nat
    requires Finite(server)
    decreases server.rank(url)
  {
    var p := server.page(url);
    1 + (if p.nextLink.Some? then Pages(server, p.nextLink.value) else 0)
  }

  /** `ignore_responses`: an HTTP error raised by the block is swallowed
      when its status is one of `codes`, and raised again otherwise. */
  function IgnoreResponses(codes: set<int>, raised: Option<int>): (r: Option<int>)
    ensures r.None? <==> raised.None? || raised.value in codes
    ensures r.Some? ==> r == raised
  {
    if raised.Some? && raised.value in codes then None else raised
  }

  /** An MS Graph source's credentials. */
  datatype GraphSource = GraphSource(clientId: string, tenantId: string, clientSecret: Option<string>)

  /** `MSGraphSource.censor`: the same client and tenant, no secret. */
  function Censor(s: GraphSource): (c: GraphSource)
    ensures c.clientId == s.clientId && c.tenantId == s.tenantId && c.clientSecret.None?
  {
    GraphSource(s.clientId, s.tenantId, None)
  }

  /** Censoring twice is censoring once. */
  lemma CensorIdempotent(s: GraphSource)
    ensures Censor(Censor(s)) == Censor(s)
  {
  }

  /** `GraphCaller`: the token in use, how many tokens the creator has
      handed out, and how many raw requests were sent. */
  class GraphCaller {
    var token: nat
    var issued: nat
    var requests: nat

    /** The constructor takes the creator's first token. */
    constructor ()
      ensures token == 0 && issued == 1 && requests == 0
    {
      token := 0;
      issued := 1;
      requests := 0;
    }

    method RefreshToken()
      modifies this
      ensures token == old(issued) && issued == old(issued) + 1 && requests == old(requests)
    {
      token := issued;
      issued := issued + 1;
    }

    /** `get`. */
    method Get<T>(server: Server<T>, tail: string, retry: bool) returns (r: Result<Page<T>, int>)
      modifies this
      ensures var a := Attempt(server, GET, GraphUrl(tail), old(token), old(issued), retry);
        token == a.token && issued == a.issued && requests == old(requests) + a.calls &&
        r == Answer(server, GraphUrl(tail), a.status)
      decreases if retry then 0 else 1
    {
      var url := GraphUrl(tail);
      var status := server.status(GET, url, token);
      requests := requests + 1;
      if !Failed(status) {
        return Ok(server.page(url));
      }
      if status != Unauthorized || retry {
        return Err(status);
      }
      RefreshToken();
      r := Get(server, tail, true);
    }

    /** `head`: the status of the answer, or the status raised. */
    method Head<T>(server: Server<T>, tail: string, retry: bool) returns (r: Result<int, int>)
      modifies this
      ensures var a := Attempt(server, HEAD, GraphUrl(tail), old(token), old(issued), retry);
        token == a.token && issued == a.issued && requests == old(requests) + a.calls &&
        r == (if Failed(a.status) then Err(a.status) else Ok(a.status))
      decreases if retry then 0 else 1
    {
      var status := server.status(HEAD, GraphUrl(tail), token);
      requests := requests + 1;
      if !Failed(status) {
        return Ok(status);
      }
      if status != Unauthorized || retry {
        return Err(status);
      }
      RefreshToken();
      r := Head(server, tail, true);
    }

    /** `follow_next_link`: a GET of a full URL. */
    method FollowNextLink<T>(server: Server<T>, link: string, retry: bool) returns (r: Result<Page<T>, int>)
      modifies this
      ensures var a := Attempt(server, GET, link, old(token), old(issued), retry);
        token == a.token && issued == a.issued && requests == old(requests) + a.calls &&
        r == Answer(server, link, a.status)
      decreases if retry then 0 else 1
    {
      var status := server.status(GET, link, token);
      requests := requests + 1;
      if !Failed(status) {
        return Ok(server.page(link));
      }
      if status != Unauthorized || retry {
        return Err(status);
      }
      RefreshToken();
      r := FollowNextLink(server, link, true);
    }

    /** `paginated_get`: the items of every page in order; on an error,
        the items yielded before it and the status raised. Each page is
        fetched under the retry policy, so the token state and the request
        count move as `Paginate` says. */
    method PaginatedGet<T>(server: Server<T>, endpoint: string) returns (items: seq<T>, raised: Option<int>)
      requires Finite(server)
      modifies this
      ensures var f := Paginate(server, GraphUrl(endpoint), old(token), old(issued));
        items == f.items && raised == f.raised && token == f.token && issued == f.issued &&
        requests == old(requests) + f.calls
      ensures raised.None? ==> items == Items(server, GraphUrl(endpoint))
      ensures |items| <= |Items(server, GraphUrl(endpoint))|
      ensures items == Items(server, GraphUrl(endpoint))[..|items|]
      ensures raised.Some? ==> Failed(raised.value)
    {
      PaginatePrefix(server, GraphUrl(endpoint), token, issued);
      var first := Get(server, endpoint, false);
      if first.Err? {
        return [], Some(first.error);
      }
      items, raised := FollowPages(server, GraphUrl(endpoint), first.value, first.value.value);
    }

    /** The `while` loop of `paginated_get`: follows the next links from
        the page at `url`, which has been fetched and yielded. */
    method FollowPages<T>(server: Server<T>, ghost url: string, page: Page<T>, yielded: seq<T>)
      returns (items: seq<T>, raised: Option<int>)
      requires Finite(server) && page == server.page(url)
      modifies this
      ensures var r := FollowFrom(server, url, old(token), old(issued));
        items == yielded + r.items && raised == r.raised && token == r.token && issued == r.issued &&
        requests == old(requests) + r.calls
    {
      ghost var final := FollowFrom(server, url, token, issued);
      ghost var at := url;
      var result := page;
      items := yielded;
      while result.nextLink.Some?
        invariant result == server.page(at)
        invariant var r := FollowFrom(server, at, token, issued);
          items + r.items == yielded + final.items && r.raised == final.raised && r.token == final.token &&
          r.issued == final.issued && requests + r.calls == old(requests) + final.calls
        decreases server.rank(at)
      {
        var link := result.nextLink.value;
        var next := FollowNextLink(server, link, false);
        if next.Err? {
          return items, Some(next.error);
        }
        at := link;
        result := next.value;
        items := items + result.value;
      }
      raised := None;
    }
  }

  /** A mail folder as the service lists it. */
  datatype MailFolder = MailFolder(fid: string, parentFolderId: string, displayName: string, children: int)

  /** The folder map after recording `fs` in order: later entries with the
      same id overwrite earlier ones. */
  function Record(m: map<string, MailFolder>, fs: seq<MailFolder>): map<string, MailFolder>
    decreases |fs|
  {
    if fs == [] then m else Record(m[fs[0].fid := fs[0]], fs[1..])
  }

  /** The map holds the old ids and the listed ones, and nothing else. */
  lemma {:induction false} RecordKeys(m: map<string, MailFolder>, fs: seq<MailFolder>)
    ensures Record(m, fs).Keys == m.Keys + set f | f in fs :: f.fid
    decreases |fs|
  {
    if fs != [] {
      RecordKeys(m[fs[0].fid := fs[0]], fs[1..]);
      assert (set f | f in fs :: f.fid) == {fs[0].fid} + set f | f in fs[1..] :: f.fid;
    }
  }

  /** Every listed folder is in the map, as its last listing has it, and
      unlisted ids keep their entries. */
  lemma {:induction false} RecordLastWins(m: map<string, MailFolder>, fs: seq<MailFolder>, i: nat)
    requires i < |fs|
    requires forall j :: i < j < |fs| ==> fs[j].fid != fs[i].fid
    ensures fs[i].fid in Record(m, fs) && Record(m, fs)[fs[i].fid] == fs[i]
    decreases |fs|
  {
    if i > 0 {
      forall j | i - 1 < j < |fs[1..]| ensures fs[1..][j].fid != fs[1..][i - 1].fid {
        assert fs[1..][j] == fs[j + 1];
      }
      RecordLastWins(m[fs[0].fid := fs[0]], fs[1..], i - 1);
    } else {
      RecordUnlisted(m[fs[0].fid := fs[0]], fs[1..], fs[0].fid);
    }
  }

  lemma {:induction false} RecordUnlisted(m: map<string, MailFolder>, fs: seq<MailFolder>, id: string)
    requires id in m
    requires forall j :: 0 <= j < |fs| ==> fs[j].fid != id
    ensures id in Record(m, fs) && Record(m, fs)[id] == m[id]
    decreases |fs|
  {
    if fs != [] {
      forall j | 0 <= j < |fs[1..]| ensures fs[1..][j].fid != id {
        assert fs[1..][j] == fs[j + 1];
      }
      RecordUnlisted(m[fs[0].fid := fs[0]], fs[1..], id);
    }
  }

  /** The folders that have child folders, in listing order. */
  function WithChildren(fs: seq<MailFolder>): seq<MailFolder> {
    if fs == [] then []
    else (if fs[0].children > 0 then [fs[0]] else []) + WithChildren(fs[1..])
  }

  /** Exactly the folders with children are pushed. */
  lemma {:induction false} WithChildrenMembers(fs: seq<MailFolder>)
    ensures forall f :: f in WithChildren(fs) <==> f in fs && f.children > 0
  {
    if fs != [] {
      WithChildrenMembers(fs[1..]);
      assert forall f :: f in fs <==> f == fs[0] || f in fs[1..];
    }
  }

  lemma {:induction false} WithChildrenAppend(a: seq<MailFolder>, b: seq<MailFolder>)
    ensures WithChildren(a + b) == WithChildren(a) + WithChildren(b)
    decreases |a|
  {
    if a == [] {
      assert a + b == b;
    } else {
      assert (a + b)[0] == a[0] && (a + b)[1..] == a[1..] + b;
      WithChildrenAppend(a[1..], b);
    }
  }

  lemma {:induction false} RecordAppend(m: map<string, MailFolder>, a: seq<MailFolder>, b: seq<MailFolder>)
    ensures Record(m, a + b) == Record(Record(m, a), b)
    decreases |a|
  {
    if a == [] {
      assert a + b == b;
    } else {
      assert (a + b)[0] == a[0] && (a + b)[1..] == a[1..] + b;
      RecordAppend(m[a[0].fid := a[0]], a[1..], b);
    }
  }

  /** The builder's state after a step of the walk: the folder map, the
      stack, the error raised (if any), and the caller's token state. */
  datatype Built = Built(folders: map<string, MailFolder>, stack: seq<MailFolder>, raised: Option<int>,
                         token: nat, issued: nat, requests: nat)

  /** `_process_result` on the page at `url`, following next links: the
      token state and the request count only advance, an error already
      raised stays raised, and a new one is an HTTP error. */
  function Process(server: Server<MailFolder>, b: Built, url: string): (r: Built)
    requires Finite(server)
    ensures r.issued >= b.issued && r.requests >= b.requests
    ensures b.raised.Some? ==> r.raised.Some?
    ensures b.raised.None? && r.raised.Some? ==> Failed(r.raised.value)
    decreases server.rank(url)
  {
    var p := server.page(url);
    var b1 := b.(folders := Record(b.folders, p.value), stack := b.stack + WithChildren(p.value));
    if p.nextLink.None? then b1
    else
      var link := p.nextLink.value;
      var a := Attempt(server, GET, link, b.token, b.issued, false);
      var b2 := b1.(token := a.token, issued := a.issued, requests := b.requests + a.calls);
      if Failed(a.status) then b2.(raised := Some(a.status))
      else Process(server, b2, link)
  }

  /** Processing only pushes: the stack it started from stays below. */
  lemma {:induction false} ProcessExtendsStack(server: Server<MailFolder>, b: Built, url: string)
    requires Finite(server)
    ensures |b.stack| <= |Process(server, b, url).stack|
    ensures Process(server, b, url).stack[..|b.stack|] == b.stack
    decreases server.rank(url)
  {
    var p := server.page(url);
    var b1 := b.(folders := Record(b.folders, p.value), stack := b.stack + WithChildren(p.value));
    assert b1.stack[..|b.stack|] == b.stack;
    if p.nextLink.Some? {
      var link := p.nextLink.value;
      var a := Attempt(server, GET, link, b.token, b.issued, false);
      var b2 := b1.(token := a.token, issued := a.issued, requests := b.requests + a.calls);
      if !Failed(a.status) {
        ProcessExtendsStack(server, b2, link);
        var r := Process(server, b2, link);
        assert r.stack[..|b.stack|] == r.stack[..|b2.stack|][..|b.stack|];
      }
    }
  }

  /** A page chain processed without error records every folder of every
      page and pushes exactly the folders with children, in page order. */
  lemma {:induction false} ProcessRecordsEveryFolder(server: Server<MailFolder>, b: Built, url: string)
    requires Finite(server) && b.raised.None?
    ensures var r := Process(server, b, url);
      r.raised.None? ==>
        r.folders == Record(b.folders, Items(server, url)) &&
        r.stack == b.stack + WithChildren(Items(server, url))
    decreases server.rank(url)
  {
    var p := server.page(url);
    var r := Process(server, b, url);
    if p.nextLink.None? {
      assert Items(server, url) == p.value + [];
      assert p.value + [] == p.value;
    } else {
      var link := p.nextLink.value;
      var a := Attempt(server, GET, link, b.token, b.issued, false);
      if !Failed(a.status) {
        var b2 := b.(folders := Record(b.folders, p.value), stack := b.stack + WithChildren(p.value),
                     token := a.token, issued := a.issued, requests := b.requests + a.calls);
        assert r == Process(server, b2, link);
        assert Items(server, url) == p.value + Items(server, link);
        ProcessRecordsEveryFolder(server, b2, link);
        RecordAppend(b.folders, p.value, Items(server, link));
        WithChildrenAppend(p.value, Items(server, link));
      }
    }
  }

  function ChildFoldersTail(pn: string, fid: string, pageSize: string): string {
    Users + pn + MailFolders + "/" + fid + ChildFolders + FolderQuery + pageSize
  }

  function TopFoldersTail(pn: string, pageSize: string): string {
    Users + pn + MailFolders + FolderQuery + pageSize
  }

  /** One pop of `_recurse_child_folders`: pop the most recently pushed
      folder, request its child folders and process them. */
  function PopAndFetch(server: Server<MailFolder>, pn: string, pageSize: string, b: Built): (r: Built)
    requires Finite(server) && b.stack != []
    ensures r.issued >= b.issued && r.requests >= b.requests + 1
    ensures b.raised.Some? ==> r.raised.Some?
    ensures b.raised.None? && r.raised.Some? ==> Failed(r.raised.value)
  {
    var head := b.stack[|b.stack| - 1];
    var url := GraphUrl(ChildFoldersTail(pn, head.fid, pageSize));
    var a := Attempt(server, GET, url, b.token, b.issued, false);
    var b1 := b.(stack := b.stack[..|b.stack| - 1], token := a.token, issued := a.issued,
                 requests := b.requests + a.calls);
    if Failed(a.status) then b1.(raised := Some(a.status))
    else Process(server, b1, url)
  }

  /** The walk ended: with an error, or with an empty stack. */
  predicate Ended(b: Built) {
    b.raised.Some? || b.stack == []
  }

  /** `_recurse_child_folders`, for at most `fuel + 1` pops, going on
      while the stack is not empty: every pop sends a request, and only
      an HTTP error stops the walk early. */
  function Crawl(server: Server<MailFolder>, pn: string, pageSize: string, b: Built, fuel: nat): (r: Built)
    requires Finite(server) && b.stack != []
    ensures r.issued >= b.issued && r.requests >= b.requests + 1
    ensures b.raised.Some? ==> r.raised.Some?
    ensures b.raised.None? && r.raised.Some? ==> Failed(r.raised.value)
    decreases fuel
  {
    var b2 := PopAndFetch(server, pn, pageSize, b);
    if Ended(b2) || fuel == 0 then b2 else Crawl(server, pn, pageSize, b2, fuel - 1)
  }

  /** The ids whose child folders the walk requests, in order: always the
      top of the stack first. */
  ghost function Visits(server: Server<MailFolder>, pn: string, pageSize: string, b: Built, fuel: nat): (v: seq<string>)
    requires Finite(server) && b.stack != []
    ensures |v| >= 1 && v[0] == b.stack[|b.stack| - 1].fid
    decreases fuel
  {
    var b2 := PopAndFetch(server, pn, pageSize, b);
    [b.stack[|b.stack| - 1].fid] + (if Ended(b2) || fuel == 0 then [] else Visits(server, pn, pageSize, b2, fuel - 1))
  }

  /** A pop that succeeds keeps the folders below the top as the bottom
      of the stack. */
  lemma PopExtendsRest(server: Server<MailFolder>, pn: string, pageSize: string, b: Built)
    requires Finite(server) && b.stack != []
    ensures var b2 := PopAndFetch(server, pn, pageSize, b);
      b2.raised.None? ==> |b.stack| - 1 <= |b2.stack| && b2.stack[..|b.stack| - 1] == b.stack[..|b.stack| - 1]
  {
    var head := b.stack[|b.stack| - 1];
    var url := GraphUrl(ChildFoldersTail(pn, head.fid, pageSize));
    var a := Attempt(server, GET, url, b.token, b.issued, false);
    var b1 := b.(stack := b.stack[..|b.stack| - 1], token := a.token, issued := a.issued,
                 requests := b.requests + a.calls);
    if !Failed(a.status) {
      ProcessExtendsStack(server, b1, url);
    }
  }

  /** A pop leaves every folder below the top on the stack. */
  lemma PopKeepsRest(server: Server<MailFolder>, pn: string, pageSize: string, b: Built, f: MailFolder)
    requires Finite(server) && b.stack != [] && b.raised.None?
    requires f in b.stack[..|b.stack| - 1]
    ensures var b2 := PopAndFetch(server, pn, pageSize, b); b2.raised.None? ==> f in b2.stack
  {
    var rest := b.stack[..|b.stack| - 1];
    var b2 := PopAndFetch(server, pn, pageSize, b);
    PopExtendsRest(server, pn, pageSize, b);
    if b2.raised.None? {
      var i :| 0 <= i < |rest| && rest[i] == f;
      assert b2.stack[..|rest|][i] == f;
    }
  }

  /** A walk that ends without error has requested the child folders of
      every folder that was on the stack. */
  lemma {:induction false} CrawlVisitsEveryPushedFolder(server: Server<MailFolder>, pn: string, pageSize: string, b: Built, fuel: nat)
    requires Finite(server) && b.stack != [] && b.raised.None?
    requires var r := Crawl(server, pn, pageSize, b, fuel); r.raised.None? && r.stack == []
    ensures forall f :: f in b.stack ==> f.fid in Visits(server, pn, pageSize, b, fuel)
    decreases fuel
  {
    var b2 := PopAndFetch(server, pn, pageSize, b);
    var v := Visits(server, pn, pageSize, b, fuel);
    forall f | f in b.stack ensures f.fid in v {
      if f != b.stack[|b.stack| - 1] {
        assert f in b.stack[..|b.stack| - 1] by {
          var i :| 0 <= i < |b.stack| && b.stack[i] == f;
          assert b.stack[..|b.stack| - 1][i] == f;
        }
        PopKeepsRest(server, pn, pageSize, b, f);
        CrawlVisitsEveryPushedFolder(server, pn, pageSize, b2, fuel - 1);
        assert v == [b.stack[|b.stack| - 1].fid] + Visits(server, pn, pageSize, b2, fuel - 1);
      }
    }
  }

  /** `build_mail_fs_map` from an empty map and stack: list the top
      folders, then walk the stack if anything was pushed. */
  function BuildSpec(server: Server<MailFolder>, pn: string, pageSize: string, b: Built, fuel: nat): (r: Built)
    requires Finite(server)
    ensures r.issued >= b.issued && r.requests >= b.requests + 1
    ensures b.raised.None? && r.raised.Some? ==> Failed(r.raised.value)
    ensures var s := server.status(GET, GraphUrl(TopFoldersTail(pn, pageSize)), b.token);
      Failed(s) && s != Unauthorized ==> r.raised == Some(s) && r.folders == b.folders && r.stack == b.stack
  {
    var url := GraphUrl(TopFoldersTail(pn, pageSize));
    var a := Attempt(server, GET, url, b.token, b.issued, false);
    var b1 := b.(token := a.token, issued := a.issued, requests := b.requests + a.calls);
    if Failed(a.status) then b1.(raised := Some(a.status))
    else
      var b2 := Process(server, b1, url);
      if Ended(b2) then b2 else Crawl(server, pn, pageSize, b2, fuel)
  }

  /** Processing and walking only add ids to the map. */
  lemma {:induction false} ProcessGrowsMap(server: Server<MailFolder>, b: Built, url: string)
    requires Finite(server)
    ensures b.folders.Keys <= Process(server, b, url).folders.Keys
    decreases server.rank(url)
  {
    var p := server.page(url);
    RecordKeys(b.folders, p.value);
    if p.nextLink.Some? {
      var link := p.nextLink.value;
      var a := Attempt(server, GET, link, b.token, b.issued, false);
      var b2 := b.(folders := Record(b.folders, p.value), stack := b.stack + WithChildren(p.value),
                   token := a.token, issued := a.issued, requests := b.requests + a.calls);
      if !Failed(a.status) {
        ProcessGrowsMap(server, b2, link);
      }
    }
  }

  lemma PopGrowsMap(server: Server<MailFolder>, pn: string, pageSize: string, b: Built)
    requires Finite(server) && b.stack != []
    ensures b.folders.Keys <= PopAndFetch(server, pn, pageSize, b).folders.Keys
  {
    var head := b.stack[|b.stack| - 1];
    var url := GraphUrl(ChildFoldersTail(pn, head.fid, pageSize));
    var a := Attempt(server, GET, url, b.token, b.issued, false);
    var b1 := b.(stack := b.stack[..|b.stack| - 1], token := a.token, issued := a.issued,
                 requests := b.requests + a.calls);
    if !Failed(a.status) {
      ProcessGrowsMap(server, b1, url);
    }
  }

  lemma {:induction false} CrawlGrowsMap(server: Server<MailFolder>, pn: string, pageSize: string, b: Built, fuel: nat)
    requires Finite(server) && b.stack != []
    ensures b.folders.Keys <= Crawl(server, pn, pageSize, b, fuel).folders.Keys
    decreases fuel
  {
    PopGrowsMap(server, pn, pageSize, b);
    var b2 := PopAndFetch(server, pn, pageSize, b);
    if !Ended(b2) && fuel > 0 {
      CrawlGrowsMap(server, pn, pageSize, b2, fuel - 1);
    }
  }

  /** A build that succeeds leaves the stack empty and maps every top
      folder's id. */
  lemma BuildMapsTopFolders(server: Server<MailFolder>, pn: string, pageSize: string, b: Built, fuel: nat)
    requires Finite(server) && b.raised.None? && b.stack == []
    requires Ended(BuildSpec(server, pn, pageSize, b, fuel))
    ensures var r := BuildSpec(server, pn, pageSize, b, fuel);
      r.raised.None? ==>
        r.stack == [] &&
        forall f :: f in Items(server, GraphUrl(TopFoldersTail(pn, pageSize))) ==> f.fid in r.folders
  {
    var url := GraphUrl(TopFoldersTail(pn, pageSize));
    var a := Attempt(server, GET, url, b.token, b.issued, false);
    var b1 := b.(token := a.token, issued := a.issued, requests := b.requests + a.calls);
    var r := BuildSpec(server, pn, pageSize, b, fuel);
    if !Failed(a.status) && r.raised.None? {
      var items := Items(server, url);
      var b2 := Process(server, b1, url);
      assert Ended(b2) ==> r == b2;
      ProcessRecordsEveryFolder(server, b1, url);
      RecordKeys(b1.folders, items);
      assert forall f :: f in items ==> f.fid in b2.folders;
      if !Ended(b2) {
        CrawlGrowsMap(server, pn, pageSize, b2, fuel);
        assert r == Crawl(server, pn, pageSize, b2, fuel);
      }
    }
  }

  /** `MailFSBuilder`: the folder map and the recursion stack. */
  class MailFSBuilder {
    var folderMap: map<string, MailFolder>
    var stack: seq<MailFolder>

    constructor ()
      ensures folderMap == map[] && stack == []
    {
      folderMap := map[];
      stack := [];
    }

    /** The loop of `_process_result` over one page's folders: record
        each by id and push those with children. */
    method RecordPage(folders: seq<MailFolder>)
      modifies this
      ensures folderMap == Record(old(folderMap), folders)
      ensures stack == old(stack) + WithChildren(folders)
    {
      var i := 0;
      while i < |folders|
        invariant 0 <= i <= |folders|
        invariant folderMap == Record(old(folderMap), folders[..i])
        invariant stack == old(stack) + WithChildren(folders[..i])
      {
        var folder := folders[i];
        assert folders[..i + 1] == folders[..i] + [folder];
        RecordAppend(old(folderMap), folders[..i], [folder]);
        WithChildrenAppend(folders[..i], [folder]);
        folderMap := folderMap[folder.fid := folder];
        if folder.children > 0 {
          stack := stack + [folder];
        }
        i := i + 1;
      }
      assert folders[..i] == folders;
    }

    /** `_process_result` on `result`, the page served at `url`. */
    method ProcessResult(caller: GraphCaller, server: Server<MailFolder>, result: Page<MailFolder>, ghost url: string)
      returns (raised: Option<int>)
      requires Finite(server) && result == server.page(url)
      modifies this, caller
      ensures Built(folderMap, stack, raised, caller.token, caller.issued, caller.requests)
           == Process(server, Built(old(folderMap), old(stack), None, old(caller.token), old(caller.issued), old(caller.requests)), url)
      decreases server.rank(url)
    {
      RecordPage(result.value);
      raised := None;
      if result.nextLink.Some? {
        var next := caller.FollowNextLink(server, result.nextLink.value, false);
        if next.Err? {
          return Some(next.error);
        }
        raised := ProcessResult(caller, server, next.value, result.nextLink.value);
      }
    }

    /** One pop of `_recurse_child_folders`: pop the top folder, request
        its child folders and process them. */
    method PopAndProcess(caller: GraphCaller, server: Server<MailFolder>, pn: string, pageSize: string)
      returns (raised: Option<int>)
      requires Finite(server) && stack != []
      modifies this, caller
      ensures Built(folderMap, stack, raised, caller.token, caller.issued, caller.requests)
           == PopAndFetch(server, pn, pageSize,
                          Built(old(folderMap), old(stack), None, old(caller.token), old(caller.issued), old(caller.requests)))
    {
      var head := stack[|stack| - 1];
      stack := stack[..|stack| - 1];
      var tail := ChildFoldersTail(pn, head.fid, pageSize);
      var result := caller.Get(server, tail, false);
      if result.Err? {
        return Some(result.error);
      }
      raised := ProcessResult(caller, server, result.value, GraphUrl(tail));
    }

    /** `_recurse_child_folders`, on a walk that ends within `fuel` pops. */
    method RecurseChildFolders(caller: GraphCaller, server: Server<MailFolder>, pn: string, pageSize: string, ghost fuel: nat)
      returns (raised: Option<int>)
      requires Finite(server) && stack != []
      requires Ended(Crawl(server, pn, pageSize, Built(folderMap, stack, None, caller.token, caller.issued, caller.requests), fuel))
      modifies this, caller
      ensures Built(folderMap, stack, raised, caller.token, caller.issued, caller.requests)
           == Crawl(server, pn, pageSize, Built(old(folderMap), old(stack), None, old(caller.token), old(caller.issued), old(caller.requests)), fuel)
      decreases fuel
    {
      raised := PopAndProcess(caller, server, pn, pageSize);
      if raised.None? && |stack| > 0 {
        raised := RecurseChildFolders(caller, server, pn, pageSize, fuel - 1);
      }
    }

    /** `build_mail_fs_map`, on a walk that ends within `fuel` pops. */
    method BuildMailFsMap(caller: GraphCaller, server: Server<MailFolder>, pn: string, pageSize: string, ghost fuel: nat)
      returns (raised: Option<int>)
      requires Finite(server)
      requires Ended(BuildSpec(server, pn, pageSize, Built(folderMap, stack, None, caller.token, caller.issued, caller.requests), fuel))
      modifies this, caller
      ensures Built(folderMap, stack, raised, caller.token, caller.issued, caller.requests)
           == BuildSpec(server, pn, pageSize, Built(old(folderMap), old(stack), None, old(caller.token), old(caller.issued), old(caller.requests)), fuel)
    {
      var result := caller.Get(server, TopFoldersTail(pn, pageSize), false);
      if result.Err? {
        return Some(result.error);
      }
      raised := ProcessResult(caller, server, result.value, GraphUrl(TopFoldersTail(pn, pageSize)));
      if raised.None? && |stack| > 0 {
        raised := RecurseChildFolders(caller, server, pn, pageSize, fuel);
      }
    }
  }

  /** The parent chain from `fid` leaves the map within `k` steps. */
  predicate Reaches(m: map<string, MailFolder>, fid: string, k: nat)
    decreases k
  {
    fid !in m || m[fid].parentFolderId !in m || (k > 0 && Reaches(m, m[fid].parentFolderId, k - 1))
  }

  /** `build_path`: the display names from the outermost known ancestor
      down to the folder, joined by "/". */
  function BuildPath(m: map<string, MailFolder>, fid: string, k: nat): (p: string)
    requires Reaches(m, fid, k)
    ensures fid !in m ==> p == ""
    ensures fid in m ==> |p| >= |m[fid].displayName| && p[|p| - |m[fid].displayName|..] == m[fid].displayName
    ensures fid in m && m[fid].parentFolderId in m ==> |p| > |m[fid].displayName|
    decreases k
  {
    if fid !in m then ""
    else if m[fid].parentFolderId !in m then m[fid].displayName
    else BuildPath(m, m[fid].parentFolderId, k - 1) + "/" + m[fid].displayName
  }

  /** The three cases of the path, and its independence from the bound. */
  lemma {:induction false} BuildPathCases(m: map<string, MailFolder>, fid: string, k: nat, k2: nat)
    requires Reaches(m, fid, k) && k <= k2
    ensures Reaches(m, fid, k2) && BuildPath(m, fid, k2) == BuildPath(m, fid, k)
    ensures fid !in m ==> BuildPath(m, fid, k) == ""
    ensures fid in m && m[fid].parentFolderId !in m ==> BuildPath(m, fid, k) == m[fid].displayName
    ensures fid in m && m[fid].parentFolderId in m ==>
      BuildPath(m, fid, k) == BuildPath(m, m[fid].parentFolderId, k - 1) + "/" + m[fid].displayName
    ensures fid in m ==>
      (|BuildPath(m, fid, k)| >= |m[fid].displayName| &&
       BuildPath(m, fid, k)[|BuildPath(m, fid, k)| - |m[fid].displayName|..] == m[fid].displayName)
    decreases k
  {
    if fid in m && m[fid].parentFolderId in m {
      BuildPathCases(m, m[fid].parentFolderId, k - 1, k2 - 1);
    }
  }

  /** A folder that is its own parent has a chain that never ends: the
      recursion needs the acyclic precondition. */
  lemma {:induction false} SelfParentNeverReaches(m: map<string, MailFolder>, fid: string, k: nat)
    requires fid in m && m[fid].parentFolderId == fid
    ensures !Reaches(m, fid, k)
    decreases k
  {
    if k > 0 {
      SelfParentNeverReaches(m, fid, k - 1);
    }
  }
}
