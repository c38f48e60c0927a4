/** Redfish paths: how requests are dispatched, and which paths the gateway prints. */
module Redfish {
  import opened Text

  datatype Verb = Get | Post | Patch | OtherVerb

  /** The handler a request reaches, with the id it is given. */
  datatype Target =
    | ServiceRoot
    | SystemsCollection
    | System(id: string)
    | PatchSystem(id: string)
    | Reset(id: string)
    | Insert(id: string)
    | Eject(id: string)
    | Cd(id: string)
    | SystemMedia(id: string)
    | SystemEthernet(id: string)
    | ManagersCollection
    | Manager(id: string)
    | ManagerMedia(id: string)
    | ManagerEthernet(id: string)
    | NotFound

  const ROOT := "/redfish/v1"
  const SYSTEMS := "/Systems/"
  const MANAGERS := "/Managers/"
  const RESET := "/Actions/ComputerSystem.Reset"
  const INSERT := "/Actions/VirtualMedia.InsertMedia"
  const EJECT := "/Actions/VirtualMedia.EjectMedia"
  const CD := "/VirtualMedia/Cd"
  const MEDIA := "/VirtualMedia"
  const ETHERNET := "/EthernetInterfaces"

  // ---------------------------------------------------------------- bare UUID paths

  predicate HexChar(c: char) {
    '0' <= c <= '9' || 'a' <= c <= 'f' || 'A' <= c <= 'F'
  }

  /** The 8-4-4-4-12 text form. */
  predicate LooksLikeUuid(s: string) {
    |s| == 36 && forall i :: 0 <= i < 36 ==> if i in {8, 13, 18, 23} then s[i] == '-' else HexChar(s[i])
  }

  function FirstSlash(s: string): (k: nat)
    ensures k <= |s| && (k < |s| ==> s[k] == '/')
    ensures forall i :: 0 <= i < k ==> s[i] != '/'
  {
    if s == "" then 0 else if s[0] == '/' then 0 else 1 + FirstSlash(s[1..])
  }

  const RESERVED: set<string> :=
    {"systems", "managers", "chassis", "sessionservice", "accountservice", "registries", "taskservice", "eventservice",
    "updateservice", "jsonschemas", "$metadata"}

  /** rewriteBareUUIDPath: /{uuid}[/…] stands for /Systems/{uuid}[/…]. */
  function RewriteBare(p: string): string {
    if p == "/" || p == "" then p else
    var rest := TrimPrefix(p, "/");
    var k := FirstSlash(rest);
    if !LooksLikeUuid(rest[..k]) || Lower(rest[..k]) in RESERVED then p else SYSTEMS + rest
  }

  /** The path below the service root, without a trailing slash. */
  function Normalize(path: string): string {
    var p := TrimSuffix(TrimPrefix(path, ROOT), "/");
    RewriteBare(if p == "" then "/" else p)
  }

  // ---------------------------------------------------------------- dispatch

  function IdFrom(p: string, collection: string, suffix: string): string {
    TrimSuffix(TrimPrefix(p, collection), suffix)
  }

  /** Manager "1" serves every system; the one meant comes in the query. */
  function ManagerSystem(p: string, suffix: string, query: string): string {
    var id := IdFrom(p, MANAGERS, suffix);
    if id != "" && id != "1" then id else Trim(query)
  }

  predicate HasSlash(s: string) {
    '/' in s
  }

  function DispatchSystem(p: string, verb: Verb): Target
    requires HasPrefix(p, SYSTEMS)
  {
    if HasSuffix(p, RESET) && verb == Post then Reset(IdFrom(p, SYSTEMS, RESET))
    else if HasSuffix(p, CD + INSERT) && verb == Post then Insert(IdFrom(p, SYSTEMS, CD + INSERT))
    else if HasSuffix(p, CD + EJECT) && verb == Post then Eject(IdFrom(p, SYSTEMS, CD + EJECT))
    else if HasSuffix(p, CD) && verb == Get then Cd(IdFrom(p, SYSTEMS, CD))
    else if HasSuffix(p, MEDIA) && verb == Get then SystemMedia(IdFrom(p, SYSTEMS, MEDIA))
    else if HasSuffix(p, ETHERNET) && verb == Get then SystemEthernet(IdFrom(p, SYSTEMS, ETHERNET))
    else
      var id := TrimPrefix(p, SYSTEMS);
      if HasSlash(id) then NotFound else if verb == Patch then PatchSystem(id) else if verb == Get then System(id)
          else NotFound
  }

  function DispatchManager(p: string, verb: Verb, query: string): Target
    requires HasPrefix(p, MANAGERS)
  {
    if HasSuffix(p, CD + INSERT) && verb == Post then Insert(ManagerSystem(p, CD + INSERT, query))
    else if HasSuffix(p, CD + EJECT) && verb == Post then Eject(ManagerSystem(p, CD + EJECT, query))
    else if HasSuffix(p, CD) && verb == Get then Cd(ManagerSystem(p, CD, query))
    else if HasSuffix(p, MEDIA) && verb == Get then ManagerMedia(IdFrom(p, MANAGERS, MEDIA))
    else if HasSuffix(p, ETHERNET) && verb == Get then ManagerEthernet(IdFrom(p, MANAGERS, ETHERNET))
    else if verb == Get && !HasSlash(TrimPrefix(p, MANAGERS)) then Manager(TrimPrefix(p, MANAGERS))
    else NotFound
  }

  /** route: path and method of the request, and its ?system= value. */
  function Route(path: string, verb: Verb, query: string): Target {
    var p := Normalize(path);
    if p == "/" && verb == Get then ServiceRoot
    else if p == "/Systems" && verb == Get then SystemsCollection
    else if HasPrefix(p, SYSTEMS) then DispatchSystem(p, verb)
    else if p == "/Managers" && verb == Get then ManagersCollection
    else if HasPrefix(p, MANAGERS) then DispatchManager(p, verb, query)
    else NotFound
  }

  // ---------------------------------------------------------------- printed links

  /** A printed path, the method it is meant for, and the handler it is printed for. */
  datatype Link = Link(verb: Verb, path: string, target: Target)

  function SystemPath(id: string): string {
    ROOT + SYSTEMS + id
  }

  function ManagerPath(id: string): string {
    ROOT + MANAGERS + id
  }

  /** The links and action targets of the drive page requested as path. */
  function CdLinks(path: string, id: string): seq<Link> {
    var self := TrimSuffix(path, "/");
    [Link(Get, self, Cd(id)), Link(Post, self + INSERT, Insert(id)), Link(Post, self + EJECT, Eject(id))]
  }

  /** What every page but the drive's prints about the system id. */
  function LinksOn(t: Target): seq<Link> {
    match t
    case System(id) =>
      [Link(Get, SystemPath(id), System(id)),
      Link(Post, SystemPath(id) + RESET, Reset(id)),
      Link(Get, SystemPath(id) + MEDIA, SystemMedia(id)),
      Link(Get, SystemPath(id) + ETHERNET, SystemEthernet(id)),
      Link(Get, ManagerPath(id), Manager(id))]
    case SystemMedia(id) => [Link(Get, SystemPath(id) + MEDIA, t), Link(Get, SystemPath(id) + CD, Cd(id))]
    case SystemEthernet(id) => [Link(Get, SystemPath(id) + ETHERNET, t)]
    case Manager(id) =>
      [Link(Get, ManagerPath(id), t),
      Link(Get, ManagerPath(id) + MEDIA, ManagerMedia(id)),
      Link(Get, ManagerPath(id) + ETHERNET, ManagerEthernet(id)),
      Link(Get, SystemPath(id), System(id))]
    case ManagerMedia(id) => [Link(Get, ManagerPath(id) + MEDIA, t), Link(Get, ManagerPath(id) + CD, Cd(id))]
    case ManagerEthernet(id) => [Link(Get, ManagerPath(id) + ETHERNET, t)]
    case _ => []
  }

  /** What the pages that are not about one system print, with mapped the UUIDs on record. Manager
      "1" stands for all of them. */
  function SharedLinks(t: Target, mapped: seq<string>): seq<Link> {
    var n := |mapped|;
    var systems := seq(n, i requires 0 <= i < n => Link(Get, SystemPath(mapped[i]), System(mapped[i])));
    var managers := seq(n, i requires 0 <= i < n => Link(Get, ManagerPath(mapped[i]), Manager(mapped[i])));
    match t
    case ServiceRoot =>
      [Link(Get, ROOT + "/", t), Link(Get, ROOT + "/Systems", SystemsCollection),
          Link(Get, ROOT + "/Managers", ManagersCollection)]
    case SystemsCollection => [Link(Get, ROOT + "/Systems", t)] + systems
    case ManagersCollection => [Link(Get, ROOT + "/Managers", t), Link(Get, ManagerPath("1"), Manager("1"))] + managers
    case Manager(_) =>
      [Link(Get, ManagerPath("1"), Manager("1")), Link(Get, ManagerPath("1") + MEDIA, ManagerMedia("1")),
      Link(Get, ManagerPath("1") + ETHERNET, ManagerEthernet("1"))] + systems
    case ManagerMedia(_) =>
      [Link(Get, ManagerPath("1") + MEDIA, ManagerMedia("1")), Link(Get, ManagerPath("1") + CD, Cd(""))]
    case ManagerEthernet(_) => [Link(Get, ManagerPath("1") + ETHERNET, ManagerEthernet("1"))]
    case _ => []
  }

  // ---------------------------------------------------------------- string facts

  lemma NoSuffix(p: string, x: string, k: nat)
    requires k < |x| && (k < |p| ==> p[|p| - 1 - k] != x[|x| - 1 - k])
    ensures !HasSuffix(p, x)
  {
    if |x| <= |p| {
      assert p[|p| - |x|..][|x| - 1 - k] == p[|p| - 1 - k];
    }
  }

  lemma SuffixOfSum(a: string, x: string)
    ensures HasSuffix(a + x, x) && TrimSuffix(a + x, x) == a
  {
    assert (a + x)[|a|..] == x;
    assert (a + x)[..|a|] == a;
  }

  lemma PrefixOfSum(a: string, x: string)
    ensures HasPrefix(a + x, a) && TrimPrefix(a + x, a) == x
  {
    assert (a + x)[..|a|] == a;
    assert (a + x)[|a|..] == x;
  }

  lemma ReservedAreShort(s: string)
    requires |s| == 36
    ensures Lower(s) !in RESERVED
  {
  }

  lemma {:induction false} FirstSlashAt(s: string, k: nat)
    requires k <= |s| && (k < |s| ==> s[k] == '/') && forall i :: 0 <= i < k ==> s[i] != '/'
    ensures FirstSlash(s) == k
  {
    if k > 0 {
      FirstSlashAt(s[1..], k - 1);
    }
  }

  lemma UuidChars(id: string, i: nat)
    requires LooksLikeUuid(id) && i < 36
    ensures HexChar(id[i]) || id[i] == '-'
    ensures id[i] != '/'
  {
  }

  // ---------------------------------------------------------------- bare and full form

  /** What may follow the id in a path. */
  predicate Tail(tail: string) {
    tail == "" || tail[0] == '/'
  }

  lemma BareIsRewritten(id: string, tail: string)
    requires LooksLikeUuid(id) && Tail(tail)
    ensures RewriteBare("/" + id + tail) == SYSTEMS + id + tail
  {
    var p := "/" + id + tail;
    var rest := id + tail;
    assert p == "/" + rest;
    PrefixOfSum("/", rest);
    forall i | 0 <= i < 36 ensures rest[i] != '/' {
      UuidChars(id, i);
    }
    FirstSlashAt(rest, 36);
    assert rest[..36] == id;
    ReservedAreShort(id);
    assert SYSTEMS + rest == SYSTEMS + id + tail;
  }

  lemma NotRewritten(p: string, k: nat)
    requires p != "" && p[0] == '/' && 0 < k < 36 && 1 + k <= |p|
    requires 1 + k < |p| ==> p[1 + k] == '/'
    requires forall i :: 1 <= i < 1 + k ==> p[i] != '/'
    ensures RewriteBare(p) == p
  {
    var rest := p[1..];
    assert p[..1] == "/";
    FirstSlashAt(rest, k);
  }

  lemma TrimmedTail(a: string, tail: string)
    requires a != "" && a[|a| - 1] != '/'
    ensures Tail(tail) ==> Tail(TrimSuffix(tail, "/"))
    ensures TrimSuffix(a + tail, "/") == a + TrimSuffix(tail, "/")
  {
    if tail != "" && tail[|tail| - 1] == '/' {
      assert tail[|tail| - 1..] == "/";
      assert (a + tail)[|a + tail| - 1..] == "/";
    } else {
      NoSuffix(a + tail, "/", 0);
      NoSuffix(tail, "/", 0);
    }
  }

  lemma FullIsKept(id: string, tail: string, collection: string)
    requires collection == SYSTEMS || collection == MANAGERS
    ensures RewriteBare(collection + id + tail) == collection + id + tail
  {
    NotRewritten(collection + id + tail, |collection| - 2);
  }

  lemma NormalizeBare(id: string, tail: string)
    requires LooksLikeUuid(id) && Tail(tail)
    ensures Normalize(ROOT + "/" + id + tail) == SYSTEMS + id + TrimSuffix(tail, "/")
  {
    UuidChars(id, 35);
    PrefixOfSum(ROOT, "/" + id + tail);
    assert ROOT + "/" + id + tail == ROOT + ("/" + id + tail);
    TrimmedTail("/" + id, tail);
    BareIsRewritten(id, TrimSuffix(tail, "/"));
  }

  lemma NormalizeFull(id: string, tail: string, collection: string)
    requires collection == SYSTEMS || collection == MANAGERS
    requires id != "" && id[|id| - 1] != '/'
    ensures Normalize(ROOT + collection + id + tail) == collection + id + TrimSuffix(tail, "/")
  {
    PrefixOfSum(ROOT, collection + id + tail);
    assert ROOT + collection + id + tail == ROOT + (collection + id + tail);
    TrimmedTail(collection + id, tail);
    FullIsKept(id, TrimSuffix(tail, "/"), collection);
  }

  /** Leaving out "Systems/" changes nothing, whatever follows the id. */
  lemma BareDispatchesAsFull(id: string, tail: string, verb: Verb, query: string)
    requires LooksLikeUuid(id) && Tail(tail)
    ensures Route(ROOT + "/" + id + tail, verb, query) == Route(ROOT + SYSTEMS + id + tail, verb, query)
  {
    NormalizeBare(id, tail);
    UuidChars(id, 35);
    NormalizeFull(id, tail, SYSTEMS);
  }

  // ---------------------------------------------------------------- printed links are dispatched

  /** A suffix of a path ending in id and t, when it starts at a slash and has no dash, is a suffix of t. */
  lemma SuffixIsInTail(a: string, id: string, t: string, x: string)
    requires LooksLikeUuid(id) && x != "" && x[0] == '/' && '-' !in x
    ensures HasSuffix(a + id + t, x) <==> HasSuffix(t, x)
  {
    var p := a + id + t;
    if |x| <= |t| {
      assert p[|p| - |x|..] == t[|t| - |x|..];
    } else if |x| <= 36 + |t| {
      var k := 36 + |t| - |x|;
      UuidChars(id, k);
      assert p[|a| + k] == id[k];
      NoSuffix(p, x, |x| - 1);
    } else {
      var k := 27 + |t|;
      assert p[|p| - 1 - k] == id[8] == '-';
      assert x[|x| - 1 - k] in x;
      NoSuffix(p, x, k);
    }
  }

  /** The tails the gateway prints, and the handler each is printed for. */
  lemma TailsAreDistinct()
    ensures !HasSuffix(CD + INSERT, RESET) && !HasSuffix(CD + EJECT, RESET)
    ensures !HasSuffix(RESET, CD + INSERT) && !HasSuffix(CD + EJECT, CD + INSERT)
    ensures !HasSuffix(MEDIA, CD) && !HasSuffix(ETHERNET, CD) && !HasSuffix(ETHERNET, MEDIA)
    ensures !HasSuffix("", CD) && !HasSuffix("", MEDIA) && !HasSuffix("", ETHERNET)
    ensures HasSuffix(RESET, RESET) && HasSuffix(CD + INSERT, CD + INSERT) && HasSuffix(CD + EJECT, CD + EJECT)
    ensures HasSuffix(CD, CD) && HasSuffix(MEDIA, MEDIA) && HasSuffix(ETHERNET, ETHERNET)
  {
    NoSuffix(CD + INSERT, RESET, 0);
    NoSuffix(CD + EJECT, RESET, 0);
    NoSuffix(MEDIA, CD, 0);
    NoSuffix(ETHERNET, CD, 0);
    NoSuffix(ETHERNET, MEDIA, 0);
  }

  lemma IdOfTail(collection: string, id: string, t: string)
    ensures HasPrefix(collection + id + t, collection)
    ensures TrimPrefix(collection + id + t, collection) == id + t
    ensures IdFrom(collection + id + t, collection, t) == id
  {
    assert collection + id + t == collection + (id + t);
    PrefixOfSum(collection, id + t);
    SuffixOfSum(id, t);
  }

  lemma TailNeedsNoTrim(t: string)
    requires t in {"", RESET, CD + INSERT, CD + EJECT, CD, MEDIA, ETHERNET}
    ensures TrimSuffix(t, "/") == t
  {
    NoSuffix(t, "/", 0);
  }

  lemma IdHasNoSlash(id: string)
    requires LooksLikeUuid(id)
    ensures !HasSlash(id) && id !in {"", "1"}
  {
    forall i | 0 <= i < |id| ensures id[i] != '/' {
      UuidChars(id, i);
    }
  }

  lemma ActionDispatched(id: string, t: string, query: string)
    requires LooksLikeUuid(id) && t in {RESET, CD + INSERT, CD + EJECT}
    ensures DispatchSystem(SYSTEMS + id + t, Post) ==
            (if t == RESET then Reset(id) else if t == CD + INSERT then Insert(id) else Eject(id))
    ensures t != RESET ==>
              DispatchManager(MANAGERS + id + t, Post, query) == if t == CD + INSERT then Insert(id) else Eject(id)
  {
    hide HasSuffix, HasPrefix, TrimSuffix, TrimPrefix;
    IdOfTail(SYSTEMS, id, t);
    IdOfTail(MANAGERS, id, t);
    IdHasNoSlash(id);
    TailsAreDistinct();
    SuffixIsInTail(SYSTEMS, id, t, RESET);
    SuffixIsInTail(SYSTEMS, id, t, CD + INSERT);
    SuffixIsInTail(SYSTEMS, id, t, CD + EJECT);
    SuffixIsInTail(MANAGERS, id, t, CD + INSERT);
    SuffixIsInTail(MANAGERS, id, t, CD + EJECT);
  }

  lemma SystemPageDispatched(id: string, t: string)
    requires LooksLikeUuid(id) && t in {"", CD, MEDIA, ETHERNET}
    ensures DispatchSystem(SYSTEMS + id + t, Get) ==
            (if t == "" then System(id) else if t == CD then Cd(id) else if t == MEDIA then SystemMedia(id)
                else SystemEthernet(id))
  {
    hide HasSuffix, HasPrefix, TrimSuffix, TrimPrefix;
    IdOfTail(SYSTEMS, id, t);
    IdHasNoSlash(id);
    TailsAreDistinct();
    SuffixIsInTail(SYSTEMS, id, t, CD);
    SuffixIsInTail(SYSTEMS, id, t, MEDIA);
    SuffixIsInTail(SYSTEMS, id, t, ETHERNET);
  }

  lemma ManagerPageDispatched(id: string, t: string, query: string)
    requires LooksLikeUuid(id) && t in {"", CD, MEDIA, ETHERNET}
    ensures DispatchManager(MANAGERS + id + t, Get, query) ==
            (if t == "" then Manager(id) else if t == CD then Cd(id) else if t == MEDIA then ManagerMedia(id)
                else ManagerEthernet(id))
  {
    hide HasSuffix, HasPrefix, TrimSuffix, TrimPrefix;
    IdOfTail(MANAGERS, id, t);
    IdHasNoSlash(id);
    TailsAreDistinct();
    SuffixIsInTail(MANAGERS, id, t, CD);
    SuffixIsInTail(MANAGERS, id, t, MEDIA);
    SuffixIsInTail(MANAGERS, id, t, ETHERNET);
  }

  lemma SystemTailRoutes(id: string, t: string, query: string)
    requires LooksLikeUuid(id) && t in {"", RESET, CD + INSERT, CD + EJECT, CD, MEDIA, ETHERNET}
    ensures forall verb :: Route(SystemPath(id) + t, verb, query) == DispatchSystem(SYSTEMS + id + t, verb)
  {
    hide DispatchSystem, HasSuffix, TrimSuffix, TrimPrefix, Normalize;
    UuidChars(id, 35);
    NormalizeFull(id, t, SYSTEMS);
    TailNeedsNoTrim(t);
    IdOfTail(SYSTEMS, id, t);
    assert (SYSTEMS + id + t)[8] == '/';
  }

  lemma NoPrefix(p: string, x: string, k: nat)
    requires k < |x| && (k < |p| ==> p[k] != x[k])
    ensures !HasPrefix(p, x)
  {
    if |x| <= |p| {
      assert p[..|x|][k] == p[k];
    }
  }

  lemma DispatchByCollection(p: string, verb: Verb, query: string)
    requires HasPrefix(p, MANAGERS) && |p| > 10
    ensures p != "/" && p != "/Systems" && p != "/Managers" && !HasPrefix(p, SYSTEMS)
  {
    assert p[..10][1] == 'M';
    NoPrefix(p, SYSTEMS, 1);
  }

  lemma ManagerTailRoutes(id: string, t: string, verb: Verb, query: string)
    requires LooksLikeUuid(id) && t in {"", CD + INSERT, CD + EJECT, CD, MEDIA, ETHERNET}
    ensures Route(ManagerPath(id) + t, verb, query) == DispatchManager(MANAGERS + id + t, verb, query)
  {
    UuidChars(id, 35);
    NormalizeFull(id, t, MANAGERS);
    TailNeedsNoTrim(t);
    IdOfTail(MANAGERS, id, t);
    DispatchByCollection(MANAGERS + id + t, verb, query);
  }

  predicate Reaches(l: Link) {
    Route(l.path, l.verb, "") == l.target
  }

  function SystemPage(id: string, t: string): Target {
    if t == "" then System(id) else if t == CD then Cd(id) else if t == MEDIA then SystemMedia(id)
        else SystemEthernet(id)
  }

  function ManagerPage(id: string, t: string): Target {
    if t == "" then Manager(id) else if t == CD then Cd(id) else if t == MEDIA then ManagerMedia(id)
        else ManagerEthernet(id)
  }

  lemma PageReached(id: string, t: string)
    requires LooksLikeUuid(id) && t in {"", CD, MEDIA, ETHERNET}
    ensures Reaches(Link(Get, SystemPath(id) + t, SystemPage(id, t)))
    ensures Reaches(Link(Get, ManagerPath(id) + t, ManagerPage(id, t)))
  {
    SystemTailRoutes(id, t, "");
    SystemPageDispatched(id, t);
    ManagerTailRoutes(id, t, Get, "");
    ManagerPageDispatched(id, t, "");
  }

  lemma ResetReached(id: string)
    requires LooksLikeUuid(id)
    ensures Reaches(Link(Post, SystemPath(id) + RESET, Reset(id)))
  {
    SystemTailRoutes(id, RESET, "");
    ActionDispatched(id, RESET, "");
  }

  lemma RootPages(id: string)
    requires LooksLikeUuid(id)
    ensures Reaches(Link(Get, SystemPath(id), System(id))) && Reaches(Link(Get, ManagerPath(id), Manager(id)))
  {
    PageReached(id, "");
    assert SystemPath(id) + "" == SystemPath(id) && ManagerPath(id) + "" == ManagerPath(id);
  }

  lemma SystemLink(id: string, l: Link)
    requires LooksLikeUuid(id) && l in LinksOn(System(id))
    ensures Reaches(l)
  {
    hide Reaches, LooksLikeUuid;
    var links := LinksOn(System(id));
    if l == links[0] || l == links[4] {
      RootPages(id);
    } else if l == links[1] {
      ResetReached(id);
    } else {
      PageReached(id, if l == links[2] then MEDIA else ETHERNET);
    }
  }

  lemma ManagerLink(id: string, l: Link)
    requires LooksLikeUuid(id) && l in LinksOn(Manager(id))
    ensures Reaches(l)
  {
    hide Reaches, LooksLikeUuid;
    var links := LinksOn(Manager(id));
    if l == links[0] || l == links[3] {
      RootPages(id);
    } else {
      PageReached(id, if l == links[1] then MEDIA else ETHERNET);
    }
  }

  /** The system a page is about. */
  function About(t: Target): string {
    match t
    case System(id) => id
    case SystemMedia(id) => id
    case SystemEthernet(id) => id
    case Manager(id) => id
    case ManagerMedia(id) => id
    case ManagerEthernet(id) => id
    case _ => ""
  }

  /** Every link printed for a system with an id of UUID form leads, under its method, to that system's handler. */
  lemma EveryLinkReaches(t: Target, l: Link)
    requires LooksLikeUuid(About(t)) && l in LinksOn(t)
    ensures Reaches(l)
  {
    hide Reaches, LooksLikeUuid;
    match t {
      case System(id) => SystemLink(id, l);
      case Manager(id) => ManagerLink(id, l);
      case SystemMedia(id) =>
        PageReached(id, MEDIA);
        PageReached(id, CD);
      case ManagerMedia(id) =>
        PageReached(id, MEDIA);
        PageReached(id, CD);
      case SystemEthernet(id) => PageReached(id, ETHERNET);
      case ManagerEthernet(id) => PageReached(id, ETHERNET);
      case _ =>
    }
  }

  /** A path under the service root whose first segment is too short for an id. */
  lemma NormalizeOf(p: string, k: nat)
    requires p != "" && p[0] == '/' && p[|p| - 1] != '/' && 0 < k < 36 && 1 + k <= |p|
    requires 1 + k < |p| ==> p[1 + k] == '/'
    requires forall i :: 1 <= i < 1 + k ==> p[i] != '/'
    ensures Normalize(ROOT + p) == p
  {
    PrefixOfSum(ROOT, p);
    NoSuffix(p, "/", 0);
    NotRewritten(p, k);
    hide HasPrefix, HasSuffix, TrimPrefix, RewriteBare;
  }

  lemma NormalizeRoot()
    ensures Normalize(ROOT + "/") == "/"
  {
    PrefixOfSum(ROOT, "/");
    SuffixOfSum("", "/");
    assert "" + "/" == "/";
    hide HasPrefix, HasSuffix, TrimPrefix, TrimSuffix, LooksLikeUuid;
  }

  lemma SystemsNormalized()
    ensures Normalize(ROOT + "/Systems") == "/Systems"
  {
    hide Normalize;
    NormalizeOf("/Systems", 7);
  }

  lemma ManagersNormalized()
    ensures Normalize(ROOT + "/Managers") == "/Managers" && !HasPrefix("/Managers", SYSTEMS)
  {
    NoPrefix("/Managers", SYSTEMS, 1);
    hide Normalize, HasPrefix;
    NormalizeOf("/Managers", 8);
  }

  lemma CollectionsReached()
    ensures Reaches(Link(Get, ROOT + "/", ServiceRoot))
    ensures Reaches(Link(Get, ROOT + "/Systems", SystemsCollection))
    ensures Reaches(Link(Get, ROOT + "/Managers", ManagersCollection))
  {
    hide Normalize, HasPrefix, DispatchSystem, DispatchManager;
    NormalizeRoot();
    SystemsNormalized();
    ManagersNormalized();
    assert "/Managers"[1] == 'M' && "/Systems"[1] == 'S';
  }

  lemma SharedNormalized(t: string)
    requires t in {"", MEDIA, ETHERNET, CD, CD + INSERT, CD + EJECT}
    ensures Normalize(ManagerPath("1") + t) == MANAGERS + "1" + t
  {
    NormalizeFull("1", t, MANAGERS);
    TailNeedsNoTrim(t);
  }

  /** What follows "1" is the only suffix a path of the shared manager has. */
  lemma SharedSuffix(t: string, x: string)
    requires t in {"", MEDIA, ETHERNET} && x in {CD, MEDIA, ETHERNET}
    ensures HasSuffix(MANAGERS + "1" + t, x) <==> t == x
  {
    if t == x {
      SuffixOfSum(MANAGERS + "1", t);
    } else {
      NoSuffix(MANAGERS + "1" + t, x, 0);
    }
  }

  /** The pages of the shared manager itself. */
  lemma SharedReached(t: string)
    requires t in {"", MEDIA, ETHERNET}
    ensures Reaches(Link(Get, ManagerPath("1") + t, ManagerPage("1", t)))
  {
    hide HasSuffix, HasPrefix, TrimSuffix, TrimPrefix, Normalize;
    SharedNormalized(t);
    IdOfTail(MANAGERS, "1", t);
    DispatchByCollection(MANAGERS + "1" + t, Get, "");
    SharedSuffix(t, CD);
    SharedSuffix(t, MEDIA);
    SharedSuffix(t, ETHERNET);
    assert "1" + "" == "1" && !HasSlash("1");
  }

  /** The shared manager's drive is listed without saying whose it is. */
  lemma SharedDriveReached()
    ensures Reaches(Link(Get, ManagerPath("1") + CD, Cd("")))
  {
    hide HasSuffix, TrimSuffix, TrimPrefix, Normalize;
    SharedNormalized(CD);
    assert MANAGERS + "1" + CD + "" == MANAGERS + "1" + CD;
    UnnamedPageReaches(MANAGERS + "1" + CD, "1", Get, "");
    DispatchByCollection(MANAGERS + "1" + CD, Get, "");
  }

  /** The collections list links that lead to each member, and so does the shared manager. */
  lemma EverySharedLinkReaches(t: Target, mapped: seq<string>, l: Link)
    requires forall i :: 0 <= i < |mapped| ==> LooksLikeUuid(mapped[i])
    requires l in SharedLinks(t, mapped)
    ensures Reaches(l)
  {
    hide Reaches, LooksLikeUuid;
    CollectionsReached();
    assert ManagerPath("1") + "" == ManagerPath("1");
    SharedReached("");
    SharedReached(MEDIA);
    SharedReached(ETHERNET);
    SharedDriveReached();
    forall i | 0 <= i < |mapped|
      ensures Reaches(Link(Get, SystemPath(mapped[i]), System(mapped[i])))
      ensures Reaches(Link(Get, ManagerPath(mapped[i]), Manager(mapped[i])))
    {
      RootPages(mapped[i]);
    }
  }

  // ---------------------------------------------------------------- the drive page

  /** Whether the request path itself names the system, rather than ?system=. */
  predicate PathNamesSystem(path: string) {
    var p := Normalize(path);
    HasPrefix(p, SYSTEMS) || IdFrom(p, MANAGERS, CD) !in {"", "1"}
  }

  lemma TrimPrefixExtends(s: string, x: string, t: string)
    requires |x| <= |s|
    ensures TrimPrefix(s + t, x) == TrimPrefix(s, x) + t
  {
    assert (s + t)[..|x|] == s[..|x|];
    if HasPrefix(s, x) {
      assert (s + t)[|x|..] == s[|x|..] + t;
    }
  }

  lemma RewriteExtends(p: string, t: string)
    requires p != "" && p != "/" && HasSlash(TrimPrefix(p, "/"))
    ensures RewriteBare(p + t) == RewriteBare(p) + t
  {
    var rest := TrimPrefix(p, "/");
    TrimPrefixExtends(p, "/", t);
    var k := FirstSlash(rest);
    assert k < |rest| by {
      var i :| 0 <= i < |rest| && rest[i] == '/';
    }
    FirstSlashAt(rest + t, k);
    assert (rest + t)[..k] == rest[..k];
    assert SYSTEMS + (rest + t) == SYSTEMS + rest + t;
  }

  /** The path below the service root before bare ids are rewritten. */
  function Below(path: string): string {
    TrimSuffix(TrimPrefix(path, ROOT), "/")
  }

  lemma EndOfRewritten(u: string)
    requires u != "" && HasSuffix(RewriteBare(u), CD)
    ensures |u| >= 16 && HasSlash(TrimPrefix(u, "/"))
  {
    var p := RewriteBare(u);
    var rest := TrimPrefix(u, "/");
    assert CD[13] == '/';
    assert p[|p| - 16..][13] == p[|p| - 3];
    if p != u {
      assert p == SYSTEMS + rest;
      assert p[|p| - 3] == rest[|rest| - 3];
    } else {
      assert u[|u| - 3] == '/';
      assert rest[|rest| - 3] == '/';
    }
  }

  lemma SelfIsBelow(path: string)
    requires |Below(path)| >= 16
    ensures TrimPrefix(TrimSuffix(path, "/"), ROOT) == Below(path)
    ensures |TrimSuffix(path, "/")| >= 16
  {
    if HasPrefix(path, ROOT) {
      var w := path[|ROOT|..];
      assert path == ROOT + w;
      TrimmedTail(ROOT, w);
      PrefixOfSum(ROOT, TrimSuffix(w, "/"));
    } else {
      var self := TrimSuffix(path, "/");
      assert self[..|ROOT|] == path[..|ROOT|];
    }
  }

  /** An action target printed under a drive page's own path lands on the drive's path with the action appended. */
  lemma ActionOfPage(path: string, action: string)
    requires action in {"", INSERT, EJECT}
    requires HasSuffix(Normalize(path), CD)
    ensures Normalize(TrimSuffix(path, "/") + action) == Normalize(path) + action
  {
    var u := Below(path);
    var self := TrimSuffix(path, "/");
    assert u != "";
    EndOfRewritten(u);
    SelfIsBelow(path);
    TrimPrefixExtends(self, ROOT, action);
    if action == "" {
      assert u + action == u && Normalize(path) + action == Normalize(path);
      EndOfPage(u);
      NoSuffix(u, "/", 0);
    } else {
      assert (u + action)[|u + action| - 1] == action[|action| - 1] == 'a';
      NoSuffix(u + action, "/", 0);
      RewriteExtends(u, action);
    }
  }

  lemma EndOfPage(u: string)
    requires |u| >= 16 && HasSuffix(RewriteBare(u), CD)
    ensures u[|u| - 1] == 'd'
  {
    var p := RewriteBare(u);
    assert p[|p| - 16..][15] == p[|p| - 1];
    if p != u {
      var rest := TrimPrefix(u, "/");
      assert p == SYSTEMS + rest;
    }
  }

  lemma SplitPrefix(p: string, x: string)
    requires HasPrefix(p, x)
    ensures p == x + TrimPrefix(p, x)
  {
    assert p == p[..|x|] + p[|x|..];
  }

  lemma SplitSuffix(p: string, x: string)
    requires HasSuffix(p, x)
    ensures p == TrimSuffix(p, x) + x
  {
    assert p == p[..|p| - |x|] + p[|p| - |x|..];
  }

  lemma SuffixOfRest(a: string, rest: string, x: string)
    requires |x| <= |rest|
    ensures HasSuffix(a + rest, x) <==> HasSuffix(rest, x)
  {
    assert (a + rest)[|a| + (|rest| - |x|)..] == rest[|rest| - |x|..];
  }

  lemma TooShortForCd(collection: string, rest: string)
    requires collection == SYSTEMS || collection == MANAGERS
    requires |rest| <= 1
    ensures !HasSuffix(collection + rest, CD)
  {
    NoSuffix(collection + rest, CD, 1);
  }

  lemma LengthOfId(rest: string)
    requires |TrimSuffix(rest, CD)| in {0, 1, 36}
    ensures |rest| <= 1 || |rest| >= 16
  {
  }

  /** A path's id part, when it ends like a drive page. */
  lemma IdThenCd(p: string, collection: string)
    requires HasPrefix(p, collection) && HasSuffix(p, CD)
    requires |IdFrom(p, collection, CD)| in {0, 1, 36}
    requires collection == SYSTEMS || collection == MANAGERS
    ensures p == collection + IdFrom(p, collection, CD) + CD
  {
    hide HasPrefix, HasSuffix, TrimPrefix, TrimSuffix;
    var rest := TrimPrefix(p, collection);
    SplitPrefix(p, collection);
    LengthOfId(rest);
    if |rest| <= 1 {
      TooShortForCd(collection, rest);
    } else {
      SuffixOfRest(collection, rest, CD);
      SplitSuffix(rest, CD);
    }
  }

  lemma NamedPageReaches(p: string, id: string, collection: string, verb: Verb, action: string)
    requires LooksLikeUuid(id) && collection in {SYSTEMS, MANAGERS}
    requires (action, verb) in {("", Get), (INSERT, Post), (EJECT, Post)}
    requires p == collection + id + CD
    ensures HasPrefix(p + action, collection)
    ensures collection == SYSTEMS ==> DispatchSystem(p + action, verb) == ActionTarget(id, action)
    ensures collection == MANAGERS ==> DispatchManager(p + action, verb, "") == ActionTarget(id, action)
  {
    assert p + action == collection + id + (CD + action);
    assert CD + "" == CD;
    IdOfTail(collection, id, CD + action);
    if action == "" {
      SystemPageDispatched(id, CD);
      ManagerPageDispatched(id, CD, "");
    } else {
      TailsAreDistinct();
      ActionDispatched(id, CD + action, "");
    }
  }

  function ActionTarget(id: string, action: string): Target {
    if action == "" then Cd(id) else if action == INSERT then Insert(id) else Eject(id)
  }

  /** Under Managers/1, and without the query, no system is named. */
  lemma UnnamedPageReaches(p: string, id: string, verb: Verb, action: string)
    requires id in {"", "1"}
    requires (action, verb) in {("", Get), (INSERT, Post), (EJECT, Post)}
    requires p == MANAGERS + id + CD
    ensures HasPrefix(p + action, MANAGERS)
    ensures DispatchManager(p + action, verb, "") == ActionTarget("", action)
  {
    hide HasSuffix, HasPrefix, TrimSuffix, TrimPrefix;
    var t := CD + action;
    assert p + action == MANAGERS + id + t;
    IdOfTail(MANAGERS, id, t);
    SuffixOfSum(MANAGERS + id, t);
    assert CD + "" == CD;
    if action == EJECT {
      NoSuffix(p + action, CD + INSERT, 6);
    }
  }

  lemma RouteOfPage(path: string, verb: Verb, action: string, collection: string)
    requires action in {"", INSERT, EJECT} && collection in {SYSTEMS, MANAGERS}
    requires HasSuffix(Normalize(path), CD) && HasPrefix(Normalize(path), collection)
    ensures var p := Normalize(path) + action;
            HasPrefix(p, collection) &&
            Route(TrimSuffix(path, "/") + action, verb, "") ==
            if collection == SYSTEMS then DispatchSystem(p, verb) else DispatchManager(p, verb, "")
  {
    hide DispatchSystem, DispatchManager, Normalize;
    ActionOfPage(path, action);
    var p := Normalize(path) + action;
    assert p[..|collection|] == Normalize(path)[..|collection|];
    assert |p| >= 16;
    if collection == MANAGERS {
      DispatchByCollection(p, verb, "");
    }
  }

  lemma LinkOfPage(path: string, id: string, l: Link) returns (action: string)
    requires l in CdLinks(path, id)
    ensures (action, l.verb) in {("", Get), (INSERT, Post), (EJECT, Post)}
    ensures l.path == TrimSuffix(path, "/") + action && l.target == ActionTarget(id, action)
  {
    var self := TrimSuffix(path, "/");
    assert self + "" == self;
    action := if l.target.Cd? then "" else if l.target.Insert? then INSERT else EJECT;
  }

  lemma CdOfSystem(p: string, id: string)
    requires HasPrefix(p, SYSTEMS) && DispatchSystem(p, Get) == Cd(id)
    ensures HasSuffix(p, CD) && id == IdFrom(p, SYSTEMS, CD)
  {
    hide HasSuffix, HasPrefix, TrimSuffix, TrimPrefix, HasSlash;
  }

  lemma CdOfManager(p: string, id: string, query: string)
    requires HasPrefix(p, MANAGERS) && DispatchManager(p, Get, query) == Cd(id)
    ensures HasSuffix(p, CD) && id == ManagerSystem(p, CD, query)
  {
    hide HasSuffix, HasPrefix, TrimSuffix, TrimPrefix, HasSlash;
  }

  /** Where the id of a drive page comes from. */
  lemma OriginOfId(path: string, query: string, id: string)
    requires Route(path, Get, query) == Cd(id)
    ensures var p := Normalize(path);
            HasSuffix(p, CD) &&
            if HasPrefix(p, SYSTEMS) then id == IdFrom(p, SYSTEMS, CD)
            else HasPrefix(p, MANAGERS) && id == ManagerSystem(p, CD, query)
  {
    var p := Normalize(path);
    if HasPrefix(p, SYSTEMS) {
      CdOfSystem(p, id);
    } else if HasPrefix(p, MANAGERS) {
      CdOfManager(p, id, query);
    }
  }

  lemma NamedDrivePage(path: string, id: string, action: string, verb: Verb, collection: string)
    requires LooksLikeUuid(id) && (collection == SYSTEMS || collection == MANAGERS)
    requires (action, verb) in {("", Get), (INSERT, Post), (EJECT, Post)}
    requires HasPrefix(Normalize(path), collection) && HasSuffix(Normalize(path), CD)
    requires id == IdFrom(Normalize(path), collection, CD)
    ensures Route(TrimSuffix(path, "/") + action, verb, "") == ActionTarget(id, action)
  {
    IdThenCd(Normalize(path), collection);
    NamedPageReaches(Normalize(path), id, collection, verb, action);
    RouteOfPage(path, verb, action, collection);
  }

  lemma UnnamedDrivePage(path: string, action: string, verb: Verb)
    requires (action, verb) in {("", Get), (INSERT, Post), (EJECT, Post)}
    requires HasPrefix(Normalize(path), MANAGERS) && HasSuffix(Normalize(path), CD)
    requires IdFrom(Normalize(path), MANAGERS, CD) in {"", "1"}
    ensures Route(TrimSuffix(path, "/") + action, verb, "") == ActionTarget("", action)
  {
    IdThenCd(Normalize(path), MANAGERS);
    UnnamedPageReaches(Normalize(path), IdFrom(Normalize(path), MANAGERS, CD), verb, action);
    RouteOfPage(path, verb, action, MANAGERS);
  }

  /** The links of a drive page reach the drive's system exactly when the page's own path named that system. */
  lemma DrivePageLinks(path: string, query: string, id: string, l: Link)
    requires LooksLikeUuid(id) && Route(path, Get, query) == Cd(id)
    requires l in CdLinks(path, id)
    ensures Reaches(l) <==> PathNamesSystem(path)
  {
    var action := LinkOfPage(path, id, l);
    IdHasNoSlash(id);
    OriginOfId(path, query, id);
    if HasPrefix(Normalize(path), SYSTEMS) {
      NamedDrivePage(path, id, action, l.verb, SYSTEMS);
    } else if PathNamesSystem(path) {
      NamedDrivePage(path, id, action, l.verb, MANAGERS);
    } else {
      UnnamedDrivePage(path, action, l.verb);
    }
  }

  lemma SharedPage(id: string)
    requires LooksLikeUuid(id)
    ensures Route(ManagerPath("1") + CD, Get, id) == Cd(id)
  {
    assert Trimmed(id);
    hide Normalize, HasPrefix, HasSuffix, TrimPrefix, TrimSuffix, LooksLikeUuid;
    SharedNormalized(CD);
    IdOfTail(MANAGERS, "1", CD);
    SuffixOfSum(MANAGERS + "1", CD);
    DispatchByCollection(MANAGERS + "1" + CD, Get, id);
  }

  lemma SharedAction()
    ensures Route(ManagerPath("1") + (CD + INSERT), Post, "") == Insert("")
  {
    hide Normalize, HasSuffix, HasPrefix, TrimSuffix, TrimPrefix;
    var p := MANAGERS + "1" + CD;
    assert p + INSERT == MANAGERS + "1" + (CD + INSERT);
    SharedNormalized(CD + INSERT);
    DispatchByCollection(p + INSERT, Post, "");
    UnnamedPageReaches(p, "1", Post, INSERT);
  }

  /** The shared manager's page answers for the system in the query, but its action targets lose it. */
  lemma SharedManagerLosesSystem(id: string)
    requires LooksLikeUuid(id)
    ensures var path := ManagerPath("1") + CD;
            Route(path, Get, id) == Cd(id) && Route(path + INSERT, Post, "") == Insert("")
  {
    hide LooksLikeUuid, Route;
    SharedPage(id);
    SharedAction();
    assert ManagerPath("1") + CD + INSERT == ManagerPath("1") + (CD + INSERT);
  }
}
