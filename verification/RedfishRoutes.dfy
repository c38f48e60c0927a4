/** Which handler every path and method reaches, and which reach none. */
module RedfishRoutes {
  import opened Text
  import opened Redfish

  // ---------------------------------------------------------------- the form of a UUID

  const HEX := "0123456789abcdefABCDEF"

  lemma HexIs(c: char)
    ensures HexChar(c) <==> c in HEX
  {
    if HexChar(c) {
      if '0' <= c <= '9' {
        assert HEX[c as int - '0' as int] == c;
      } else if 'a' <= c <= 'f' {
        assert HEX[10 + c as int - 'a' as int] == c;
      } else {
        assert HEX[16 + c as int - 'A' as int] == c;
      }
    }
  }

  predicate AllHex(s: string) {
    forall i :: 0 <= i < |s| ==> s[i] in HEX
  }

  /** Eight, four, four, four and twelve hex digits with dashes between them, and nothing else. */
  lemma UuidIff(s: string)
    ensures LooksLikeUuid(s) <==>
              && |s| == 36 && AllHex(s[..8]) && s[8] == '-' && AllHex(s[9..13]) && s[13] == '-' && AllHex(s[14..18])
              && s[18] == '-' && AllHex(s[19..23]) && s[23] == '-' && AllHex(s[24..])
  {
    forall c: char ensures HexChar(c) <==> c in HEX {
      HexIs(c);
    }
    if |s| == 36 {
      assert forall i :: 0 <= i < 8 ==> s[..8][i] == s[i];
      assert forall i :: 0 <= i < 4 ==>
          s[9..13][i] == s[9 + i] && s[14..18][i] == s[14 + i] && s[19..23][i] == s[19 + i];
      assert forall i :: 0 <= i < 12 ==> s[24..][i] == s[24 + i];
      hide HexChar;
      FieldsOfUuid(s);
    }
  }

  lemma FieldsOfUuid(s: string)
    requires |s| == 36
    ensures (forall i :: 0 <= i < 36 && i !in {8, 13, 18, 23} ==> s[i] in HEX) <==>
              AllHex(s[..8]) && AllHex(s[9..13]) && AllHex(s[14..18]) && AllHex(s[19..23]) && AllHex(s[24..])
  {
    if AllHex(s[..8]) && AllHex(s[9..13]) && AllHex(s[14..18]) && AllHex(s[19..23]) && AllHex(s[24..]) {
      forall i | 0 <= i < 36 && i !in {8, 13, 18, 23} ensures s[i] in HEX {
        assert i < 8 ==> s[..8][i] == s[i];
        assert 8 < i < 13 ==> s[9..13][i - 9] == s[i];
        assert 13 < i < 18 ==> s[14..18][i - 14] == s[i];
        assert 18 < i < 23 ==> s[19..23][i - 19] == s[i];
        assert 23 < i ==> s[24..][i - 24] == s[i];
      }
    }
  }

  // ---------------------------------------------------------------- the bare form

  /** A path is taken for the bare form of a system's exactly when its first segment is a UUID. */
  lemma RewrittenIff(segment: string, more: string)
    requires !HasSlash(segment) && segment != "" && Tail(more)
    ensures RewriteBare("/" + segment + more) ==
            if LooksLikeUuid(segment) then "/Systems/" + segment + more else "/" + segment + more
  {
    if LooksLikeUuid(segment) {
      BareIsRewritten(segment, more);
    } else {
      var p := "/" + segment + more;
      var rest := segment + more;
      assert p == "/" + rest;
      PrefixOfSum("/", rest);
      FirstSlashAt(rest, |segment|);
      assert rest[..|segment|] == segment;
    }
  }

  // ---------------------------------------------------------------- one system

  /** Where a request for a system goes, by what follows the id. */
  function SystemTable(id: string, tail: string, verb: Verb): Target {
    match verb
    case Get =>
      if tail == "" then System(id)
      else if tail == CD then Cd(id)
      else if tail == MEDIA then SystemMedia(id)
      else if tail == ETHERNET then SystemEthernet(id)
      else NotFound
    case Patch => if tail == "" then PatchSystem(id) else NotFound
    case Post =>
      if tail == RESET then Reset(id)
      else if tail == CD + INSERT then Insert(id)
      else if tail == CD + EJECT then Eject(id)
      else NotFound
    case OtherVerb => NotFound
  }

  /** Where a request for a manager goes; media is about the system on it, or the one the query names. */
  function ManagerTable(id: string, tail: string, verb: Verb, system: string): Target {
    match verb
    case Get =>
      if tail == "" then Manager(id)
      else if tail == CD then Cd(system)
      else if tail == MEDIA then ManagerMedia(id)
      else if tail == ETHERNET then ManagerEthernet(id)
      else NotFound
    case Post =>
      if tail == CD + INSERT then Insert(system)
      else if tail == CD + EJECT then Eject(system)
      else NotFound
    case _ => NotFound
  }

  const KNOWN: set<string> := {RESET, CD + INSERT, CD + EJECT, CD, MEDIA, ETHERNET}

  /** Nothing, a known ending and nothing else, or no known ending at all. */
  predicate Plain(tail: string) {
    && Tail(tail) && (tail == "" || tail[|tail| - 1] != '/')
    && (tail in KNOWN || forall x <- KNOWN :: !HasSuffix(tail, x))
  }

  lemma EndingsDiffer(x: string, y: string)
    requires x in KNOWN && y in KNOWN
    ensures HasSuffix(x, y) <==> x == y
  {
    assert x[|x| - |x|..] == x;
    if x != y {
      NoSuffix(x, y, if x in {CD + INSERT, CD + EJECT, MEDIA} && y in {CD + INSERT, CD + EJECT, MEDIA} then 6 else 0);
    }
  }

  lemma KnownForm(x: string)
    requires x in KNOWN
    ensures |x| >= 2 && x[0] == '/' && '-' !in x && x[1] !in {'1', 'M'} && !HasSuffix("", x)
  {
  }

  /** A plain tail has the ending x exactly when it is x. */
  lemma EndsIff(tail: string, x: string)
    requires Plain(tail) && x in KNOWN
    ensures HasSuffix(tail, x) <==> tail == x
  {
    if tail in KNOWN {
      EndingsDiffer(tail, x);
    }
  }

  /** The path ends in x exactly when what follows its id is x. */
  predicate EndsAs(p: string, tail: string) {
    && (HasSuffix(p, RESET) <==> tail == RESET) && (HasSuffix(p, CD + INSERT) <==> tail == CD + INSERT)
    && (HasSuffix(p, CD + EJECT) <==> tail == CD + EJECT) && (HasSuffix(p, CD) <==> tail == CD)
    && (HasSuffix(p, MEDIA) <==> tail == MEDIA) && (HasSuffix(p, ETHERNET) <==> tail == ETHERNET)
  }

  lemma PathEnds(collection: string, id: string, tail: string)
    requires LooksLikeUuid(id) && Plain(tail)
    ensures EndsAs(collection + id + tail, tail)
  {
    hide HasSuffix, LooksLikeUuid, Plain;
    forall x | x in KNOWN ensures HasSuffix(collection + id + tail, x) <==> tail == x {
      KnownForm(x);
      SuffixIsInTail(collection, id, tail, x);
      EndsIff(tail, x);
    }
  }

  lemma SharedPathEnds(tail: string)
    requires Plain(tail)
    ensures EndsAs(MANAGERS + "1" + tail, tail)
  {
    hide HasSuffix, Plain;
    forall x | x in KNOWN ensures HasSuffix(MANAGERS + "1" + tail, x) <==> tail == x {
      KnownForm(x);
      SharedSuffixIsInTail(tail, x);
      EndsIff(tail, x);
    }
  }

  lemma DistinctEndings()
    ensures CD != MEDIA && CD != ETHERNET && MEDIA != ETHERNET && RESET != CD + INSERT && RESET != CD + EJECT
    ensures CD + INSERT != CD + EJECT && CD != "" && MEDIA != "" && ETHERNET != "" && RESET != ""
  {
    assert |CD + INSERT| > |RESET| && |CD + EJECT| > |RESET|;
    assert (CD + INSERT)[|CD| + 22] == 'I' && (CD + EJECT)[|CD| + 22] == 'E';
  }

  /** What the endings are. */
  lemma EndingsAre()
    ensures ROOT == "/redfish/v1" && SYSTEMS == "/Systems/" && MANAGERS == "/Managers/"
    ensures RESET == "/Actions/ComputerSystem.Reset" && INSERT == "/Actions/VirtualMedia.InsertMedia"
    ensures EJECT == "/Actions/VirtualMedia.EjectMedia" && CD == "/VirtualMedia/Cd" && MEDIA == "/VirtualMedia"
    ensures ETHERNET == "/EthernetInterfaces"
  {
  }

  lemma SlashInTail(id: string, tail: string)
    requires !HasSlash(id) && Tail(tail)
    ensures HasSlash(id + tail) <==> tail != ""
    ensures tail == "" ==> id + tail == id
  {
    assert tail != "" ==> (id + tail)[|id|] == '/';
  }

  lemma SystemDispatch(id: string, tail: string, verb: Verb)
    requires LooksLikeUuid(id) && Plain(tail)
    ensures HasPrefix(SYSTEMS + id + tail, SYSTEMS)
    ensures DispatchSystem(SYSTEMS + id + tail, verb) == SystemTable(id, tail, verb)
  {
    hide HasSuffix, HasPrefix, TrimSuffix, TrimPrefix, LooksLikeUuid, Plain, HasSlash, RESET, CD, INSERT, EJECT,
        MEDIA, ETHERNET,
      SYSTEMS, MANAGERS;
    PathEnds(SYSTEMS, id, tail);
    IdHasNoSlash(id);
    EndOfPlain(tail);
    SlashInTail(id, tail);
    DistinctEndings();
    IdOfTail(SYSTEMS, id, tail);
  }

  lemma ManagerDispatch(id: string, tail: string, verb: Verb, query: string)
    requires LooksLikeUuid(id) && Plain(tail)
    ensures HasPrefix(MANAGERS + id + tail, MANAGERS)
    ensures DispatchManager(MANAGERS + id + tail, verb, query) == ManagerTable(id, tail, verb, id)
  {
    hide HasSuffix, HasPrefix, TrimSuffix, TrimPrefix, LooksLikeUuid, Plain, HasSlash, RESET, CD, INSERT, EJECT,
        MEDIA, ETHERNET,
      SYSTEMS, MANAGERS;
    PathEnds(MANAGERS, id, tail);
    IdHasNoSlash(id);
    EndOfPlain(tail);
    SlashInTail(id, tail);
    DistinctEndings();
    IdOfTail(MANAGERS, id, tail);
  }

  lemma SharedSuffixIsInTail(tail: string, x: string)
    requires |x| >= 2 && x[0] == '/' && x[1] !in {'1', 'M'}
    ensures HasSuffix(MANAGERS + "1" + tail, x) <==> HasSuffix(tail, x)
  {
    var p := MANAGERS + "1" + tail;
    if |x| <= |tail| {
      assert p[|p| - |x|..] == tail[|tail| - |x|..];
    } else if |x| <= |p| {
      var k := |p| - |x|;
      if k in {0, 9} {
        assert p[k + 1] in {'1', 'M'};
        NoSuffix(p, x, |x| - 2);
      } else {
        assert p[k] != '/';
        NoSuffix(p, x, |x| - 1);
      }
    }
  }

  lemma SharedDispatch(tail: string, verb: Verb, query: string)
    requires Plain(tail)
    ensures HasPrefix(MANAGERS + "1" + tail, MANAGERS)
    ensures DispatchManager(MANAGERS + "1" + tail, verb, query) == ManagerTable("1", tail, verb, Trim(query))
  {
    hide HasSuffix, HasPrefix, TrimSuffix, TrimPrefix, Plain, RESET, CD, INSERT, EJECT, MEDIA, ETHERNET,
      SYSTEMS, MANAGERS;
    SharedPathEnds(tail);
    EndOfPlain(tail);
    assert !HasSlash("1");
    SlashInTail("1", tail);
    DistinctEndings();
    IdOfTail(MANAGERS, "1", tail);
  }

  lemma NothingToTrim(tail: string)
    requires tail == "" || tail[|tail| - 1] != '/'
    ensures TrimSuffix(tail, "/") == tail
  {
    NoSuffix(tail, "/", 0);
  }

  lemma FinalSlash(tail: string, slash: string)
    requires (tail == "" || tail[|tail| - 1] != '/') && slash in {"", "/"}
    ensures TrimSuffix(tail + slash, "/") == tail
  {
    if slash == "" {
      assert tail + slash == tail;
      NothingToTrim(tail);
    } else {
      SuffixOfSum(tail, "/");
    }
  }

  lemma EndOfId(id: string)
    requires LooksLikeUuid(id) || id == "1"
    ensures id != "" && id[|id| - 1] != '/'
  {
    if id != "1" {
      UuidChars(id, 35);
    }
  }

  lemma EndOfPlain(tail: string)
    requires Plain(tail)
    ensures tail == "" || tail[|tail| - 1] != '/'
    ensures Tail(tail)
  {
  }

  /** A plain path is dispatched as it is, with or without the final slash. */
  lemma PlainPath(collection: string, id: string, tail: string, slash: string)
    requires collection in {SYSTEMS, MANAGERS} && (LooksLikeUuid(id) || id == "1") && Plain(tail) && slash in {"", "/"}
    ensures var p := collection + id + tail;
            && Normalize(ROOT + collection + id + tail + slash) == p
            && p !in {"/", "/Systems", "/Managers"} && (HasPrefix(p, SYSTEMS) <==> collection == SYSTEMS)
            && HasPrefix(p, collection)
  {
    hide Normalize, TrimPrefix, TrimSuffix, HasPrefix, HasSuffix, LooksLikeUuid, Plain, ROOT, SYSTEMS, MANAGERS;
    EndOfId(id);
    EndOfPlain(tail);
    FinalSlash(tail, slash);
    NormalizeFull(id, tail + slash, collection);
    assert ROOT + collection + id + tail + slash == ROOT + collection + id + (tail + slash);
    CollectionOf(collection, id + tail);
    assert collection + id + tail == collection + (id + tail);
  }

  lemma CollectionOf(collection: string, rest: string)
    requires collection in {SYSTEMS, MANAGERS}
    ensures var p := collection + rest;
            p !in {"/", "/Systems", "/Managers"} && (HasPrefix(p, SYSTEMS) <==> collection == SYSTEMS)
            && HasPrefix(p, collection)
  {
    var p := collection + rest;
    assert p[|collection| - 1] == '/' && p[..|collection|] == collection;
    if collection == MANAGERS {
      assert p[1] == 'M';
      NoPrefix(p, SYSTEMS, 1);
    }
  }

  /** Every method on every path of a system, with or without the final slash, reaches the handler of the
      table, and what the table does not list reaches none. */
  lemma SystemRoutes(id: string, tail: string, slash: string, verb: Verb, query: string)
    requires LooksLikeUuid(id) && Plain(tail) && slash in {"", "/"}
    ensures Route(SystemPath(id) + tail + slash, verb, query) == SystemTable(id, tail, verb)
  {
    hide DispatchSystem, DispatchManager, HasPrefix, Normalize, SystemTable, LooksLikeUuid, Plain, ROOT, SYSTEMS,
        MANAGERS;
    PlainPath(SYSTEMS, id, tail, slash);
    SystemDispatch(id, tail, verb);
  }

  /** The same of the managers: of a system, and of the shared one, which takes the system from the query. */
  lemma ManagerRoutes(id: string, tail: string, slash: string, verb: Verb, query: string)
    requires (LooksLikeUuid(id) || id == "1") && Plain(tail) && slash in {"", "/"}
    ensures Route(ManagerPath(id) + tail + slash, verb, query) ==
            ManagerTable(id, tail, verb, if id == "1" then Trim(query) else id)
  {
    hide DispatchSystem, DispatchManager, HasPrefix, Normalize, ManagerTable, LooksLikeUuid, Plain, ROOT, SYSTEMS,
        MANAGERS;
    PlainPath(MANAGERS, id, tail, slash);
    TwoCollections();
    if id != "1" {
      ManagerDispatch(id, tail, verb, query);
    } else {
      SharedDispatch(tail, verb, query);
    }
  }

  lemma TwoCollections()
    ensures SYSTEMS != MANAGERS
  {
  }

  /** The service root and the two collections answer Get and nothing else. */
  lemma TopRoutes(verb: Verb, query: string)
    ensures Route("/redfish/v1", verb, query) == if verb == Get then ServiceRoot else NotFound
    ensures Route("/redfish/v1/", verb, query) == if verb == Get then ServiceRoot else NotFound
    ensures Route("/redfish/v1/Systems", verb, query) == if verb == Get then SystemsCollection else NotFound
    ensures Route("/redfish/v1/Managers", verb, query) == if verb == Get then ManagersCollection else NotFound
  {
    hide Normalize, DispatchSystem, DispatchManager, HasPrefix;
    assert ROOT + "/" == "/redfish/v1/" && ROOT + "/Systems" == "/redfish/v1/Systems";
    assert ROOT + "/Managers" == "/redfish/v1/Managers";
    NormalizeRoot();
    NormalizeBareRoot();
    SystemsNormalized();
    ManagersNormalized();
    NoPrefix("/", SYSTEMS, 1);
    NoPrefix("/", MANAGERS, 1);
    NoPrefix("/Systems", SYSTEMS, 8);
    NoPrefix("/Systems", MANAGERS, 1);
    NoPrefix("/Managers", MANAGERS, 9);
    assert "/Managers"[1] == 'M' && "/Systems"[1] == 'S';
  }

  lemma NormalizeBareRoot()
    ensures Normalize("/redfish/v1") == "/"
  {
    assert ROOT + "" == ROOT;
    PrefixOfSum(ROOT, "");
  }
}
