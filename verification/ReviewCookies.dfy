/**
 Cookie renaming for review servers that share one host name: each review port stores the two
 protected cookies under names of its own.
 */
module ReviewCookies {

  const SESSION: string := "__Host-ipo_one_session"
  const CSRF: string := "__Host-ipo_one_csrf_bootstrap"
  const MARK: string := "_web027m_"

  predicate ReviewPort(port: int) {
    8939 <= port <= 8942
  }

  predicate Protected(name: string) {
    name == SESSION || name == CSRF
  }

  function PortText(port: int): string
    requires ReviewPort(port)
  {
    if port == 8939 then "8939" else if port == 8940 then "8940" else if port == 8941 then "8941" else "8942"
  }

  /** `localReviewCookieName`. */
  function CookieName(name: string, port: int): string {
    if ReviewPort(port) && Protected(name) then name + MARK + PortText(port) else name
  }

  /** Names of the form a review port gives to a protected cookie. */
  predicate Reserved(name: string) {
    SESSION + MARK <= name || CSRF + MARK <= name
  }

  // ---------------------------------------------------------------------------------------
  // The string operations the mappings are written with

  predicate Space(c: char) {
    || c in {'\t', '\n', '\r', ' ', '\U{0B}', '\U{0C}', '\U{A0}', '\U{1680}', '\U{2028}', '\U{2029}',
             '\U{202F}', '\U{205F}', '\U{3000}', '\U{FEFF}'}
    || '\U{2000}' <= c <= '\U{200A}'
  }

  function Split(s: string): (parts: seq<string>)
    ensures parts != []
  {
    if s == "" then [""]
    else
      var rest := Split(s[1..]);
      if s[0] == ';' then [""] + rest else [[s[0]] + rest[0]] + rest[1..]
  }

  function Join(parts: seq<string>): string {
    if parts == [] then ""
    else if |parts| == 1 then parts[0]
    else parts[0] + "; " + Join(parts[1..])
  }

  function TrimStart(s: string): string {
    if s != "" && Space(s[0]) then TrimStart(s[1..]) else s
  }

  function TrimEnd(s: string): string {
    if s != "" && Space(s[|s| - 1]) then TrimEnd(s[..|s| - 1]) else s
  }

  function Trim(s: string): string {
    TrimEnd(TrimStart(s))
  }

  /** Position of the first equals sign, or the length when there is none. */
  function Equals(s: string): (i: nat)
    ensures i <= |s|
    ensures i < |s| ==> s[i] == '='
    ensures forall k :: 0 <= k < i ==> s[k] != '='
  {
    if s == "" || s[0] == '=' then 0 else 1 + Equals(s[1..])
  }

  // ---------------------------------------------------------------------------------------
  // The mappings

  /** What becomes of one part of a Cookie header. */
  function RequestPart(part: string, port: int): seq<string> {
    var i := Equals(part);
    if i == |part| then [part]
    else
      var name, tail := part[..i], part[i..];
      if name == CookieName(SESSION, port) then [SESSION + tail]
      else if name == CookieName(CSRF, port) then [CSRF + tail]
      else if Protected(name) || Reserved(name) then []
      else [part]
  }

  function RequestParts(parts: seq<string>, port: int): seq<string> {
    if parts == [] then [] else RequestPart(Trim(parts[0]), port) + RequestParts(parts[1..], port)
  }

  /** `localReviewRequestCookies` on a header that is present. */
  function RequestCookies(header: string, port: int): string {
    if !ReviewPort(port) then header else Join(RequestParts(Split(header), port))
  }

  /** `localReviewResponseCookies` on one Set-Cookie value. */
  function ResponseCookie(cookie: string, port: int): string {
    var i := Equals(cookie);
    if !ReviewPort(port) || i == 0 || i == |cookie| then cookie
    else CookieName(cookie[..i], port) + cookie[i..]
  }

  // ---------------------------------------------------------------------------------------
  // What they do to any text

  /** The name under which a review port stores a protected cookie. */
  predicate StoredAs(stored: string, name: string, port: int) {
    (name == "__Host-ipo_one_session" || name == "__Host-ipo_one_csrf_bootstrap") &&
    ((port == 8939 && stored == name + "_web027m_8939") || (port == 8940 && stored == name + "_web027m_8940") ||
     (port == 8941 && stored == name + "_web027m_8941") || (port == 8942 && stored == name + "_web027m_8942"))
  }

  /** The two protected names change on the four review ports, and nothing else does. */
  lemma NameExactly(name: string, port: int)
    ensures if port in {8939, 8940, 8941, 8942} && name in {"__Host-ipo_one_session", "__Host-ipo_one_csrf_bootstrap"}
            then StoredAs(CookieName(name, port), name, port) else CookieName(name, port) == name
  {
    assert MARK + "8939" == "_web027m_8939" && MARK + "8940" == "_web027m_8940";
    assert MARK + "8941" == "_web027m_8941" && MARK + "8942" == "_web027m_8942";
    if ReviewPort(port) { assert name + MARK + PortText(port) == name + (MARK + PortText(port)); }
  }

  /** A name that any review port gives to a protected cookie, or begins like one. */
  predicate PortName(name: string) {
    "__Host-ipo_one_session_web027m_" <= name || "__Host-ipo_one_csrf_bootstrap_web027m_" <= name
  }

  lemma ReservedExactly(name: string)
    ensures Reserved(name) <==> PortName(name)
  {
    assert SESSION + MARK == "__Host-ipo_one_session_web027m_";
    assert CSRF + MARK == "__Host-ipo_one_csrf_bootstrap_web027m_";
  }

  /** One part of a request's header, on a review port: without an equals sign it stays; under
      the port's own name it gets its canonical name; under a canonical or any port's name it is
      dropped; otherwise it stays. */
  lemma PartExactly(part: string, name: string, tail: string, port: int)
    requires port in {8939, 8940, 8941, 8942}
    ensures '=' !in part ==> RequestPart(part, port) == [part]
    ensures part == name + "=" + tail && '=' !in name ==>
              && (StoredAs(name, "__Host-ipo_one_session", port) ==>
                    RequestPart(part, port) == ["__Host-ipo_one_session=" + tail])
              && (StoredAs(name, "__Host-ipo_one_csrf_bootstrap", port) ==>
                    RequestPart(part, port) == ["__Host-ipo_one_csrf_bootstrap=" + tail])
              && (!StoredAs(name, "__Host-ipo_one_session", port) &&
                  !StoredAs(name, "__Host-ipo_one_csrf_bootstrap", port) ==>
                    RequestPart(part, port) ==
                      if name in {"__Host-ipo_one_session", "__Host-ipo_one_csrf_bootstrap"} || PortName(name) then []
                      else [part])
  {
    if part == name + "=" + tail && '=' !in name {
      assert '=' in part by { assert part[|name|] == '='; }
      PairMapped(name, tail, port);
      StoredExactly(name, port);
      ReservedExactly(name);
    } else if '=' !in part {
      assert Equals(part) == |part|;
    }
  }

  lemma PairMapped(name: string, tail: string, port: int)
    requires '=' !in name
    ensures RequestPart(name + "=" + tail, port) ==
              if name == CookieName(SESSION, port) then ["__Host-ipo_one_session=" + tail]
              else if name == CookieName(CSRF, port) then ["__Host-ipo_one_csrf_bootstrap=" + tail]
              else if name in {"__Host-ipo_one_session", "__Host-ipo_one_csrf_bootstrap"} || Reserved(name) then []
              else [name + "=" + tail]
  {
    hide CookieName, Reserved, Equals;
    var part := name + "=" + tail;
    EqualsAt(name, tail);
    assert SESSION + ("=" + tail) == "__Host-ipo_one_session=" + tail;
    assert CSRF + ("=" + tail) == "__Host-ipo_one_csrf_bootstrap=" + tail;
    assert part[..|name|] == name && part[|name|..] == "=" + tail;
  }

  lemma {:induction false} EqualsAt(name: string, tail: string)
    requires '=' !in name
    ensures Equals(name + "=" + tail) == |name|
  {
    var s := name + "=" + tail;
    assert s[|name|] == '=';
    assert forall k :: 0 <= k < |name| ==> s[k] == name[k];
  }

  lemma StoredExactly(name: string, port: int)
    ensures StoredAs(name, "__Host-ipo_one_session", port) <==>
              port in {8939, 8940, 8941, 8942} && name == CookieName(SESSION, port)
    ensures StoredAs(name, "__Host-ipo_one_csrf_bootstrap", port) <==>
              port in {8939, 8940, 8941, 8942} && name == CookieName(CSRF, port)
  {
    NameExactly(SESSION, port);
    NameExactly(CSRF, port);
    hide CookieName;
  }

  /** Splitting at semicolons loses nothing. */
  function Glued(parts: seq<string>): string {
    if parts == [] then "" else if |parts| == 1 then parts[0] else parts[0] + ";" + Glued(parts[1..])
  }

  lemma {:induction false} SplitExactly(s: string)
    ensures Glued(Split(s)) == s && forall i :: 0 <= i < |Split(s)| ==> ';' !in Split(s)[i]
  {
    if s != "" {
      var rest := Split(s[1..]);
      SplitExactly(s[1..]);
      if s[0] == ';' {
        assert Split(s) == [""] + rest && ([""] + rest)[1..] == rest;
        hide Split;
        assert "" + ";" + s[1..] == s;
      } else {
        assert Split(s) == [[s[0]] + rest[0]] + rest[1..] && ([[s[0]] + rest[0]] + rest[1..])[1..] == rest[1..];
        hide Split;
        assert [s[0]] + s[1..] == s;
        GluedFirst(s[0], rest);
      }
    }
  }

  lemma GluedFirst(c: char, rest: seq<string>)
    requires rest != []
    ensures Glued([[c] + rest[0]] + rest[1..]) == [c] + Glued(rest)
  {
    var parts := [[c] + rest[0]] + rest[1..];
    assert parts[1..] == rest[1..];
    if |rest| > 1 { assert [c] + (rest[0] + ";" + Glued(rest[1..])) == [c] + rest[0] + ";" + Glued(rest[1..]); }
  }

  /** Trimming takes white space off both ends and nothing else. */
  lemma TrimExactly(s: string) returns (before: string, after: string)
    ensures s == before + Trim(s) + after
    ensures (forall i :: 0 <= i < |before| ==> Space(before[i])) && forall i :: 0 <= i < |after| ==> Space(after[i])
    ensures Trim(s) != "" ==> !Space(Trim(s)[0]) && !Space(Trim(s)[|Trim(s)| - 1])
  {
    hide Space;
    before := StartExactly(s);
    after := EndExactly(TrimStart(s));
    assert s == before + (Trim(s) + after);
  }

  lemma {:induction false} StartExactly(s: string) returns (before: string)
    ensures s == before + TrimStart(s) && forall i :: 0 <= i < |before| ==> Space(before[i])
    ensures TrimStart(s) != "" ==> !Space(TrimStart(s)[0])
  {
    hide Space;
    if s != "" && Space(s[0]) {
      var rest := StartExactly(s[1..]);
      before := [s[0]] + rest;
    } else {
      before := "";
    }
  }

  lemma {:induction false} EndExactly(s: string) returns (after: string)
    ensures s == TrimEnd(s) + after && forall i :: 0 <= i < |after| ==> Space(after[i])
    ensures TrimEnd(s) != "" ==> !Space(TrimEnd(s)[|TrimEnd(s)| - 1]) && TrimEnd(s)[0] == s[0]
  {
    hide Space;
    if s != "" && Space(s[|s| - 1]) {
      var rest := EndExactly(s[..|s| - 1]);
      after := rest + [s[|s| - 1]];
    } else {
      after := "";
    }
  }

  // ---------------------------------------------------------------------------------------
  // Cookie pairs

  datatype Pair = Pair(name: string, value: string)

  /** The characters a cookie name or value may have, as far as the mappings can tell: section
      4.2.1 of RFC 6265 allows neither separators nor white space. */
  predicate Plain(s: string) {
    forall i :: 0 <= i < |s| ==> s[i] != ';' && !Space(s[i])
  }

  predicate WellFormed(p: Pair) {
    p.name != "" && Plain(p.name) && Plain(p.value) && '=' !in p.name
  }

  ghost predicate AllWellFormed(pairs: seq<Pair>) {
    forall i :: 0 <= i < |pairs| ==> WellFormed(pairs[i])
  }

  function PairText(p: Pair): string {
    p.name + "=" + p.value
  }

  function Texts(pairs: seq<Pair>): seq<string> {
    if pairs == [] then [] else [PairText(pairs[0])] + Texts(pairs[1..])
  }

  function Renamed(p: Pair, port: int): Pair {
    Pair(CookieName(p.name, port), p.value)
  }

  /** What a browser holds after a review port has set these cookies. */
  function RenamedAll(pairs: seq<Pair>, port: int): seq<Pair> {
    if pairs == [] then [] else [Renamed(pairs[0], port)] + RenamedAll(pairs[1..], port)
  }

  function Unprotected(pairs: seq<Pair>): seq<Pair> {
    if pairs == [] then []
    else (if Protected(pairs[0].name) then [] else [pairs[0]]) + Unprotected(pairs[1..])
  }

  // ---------------------------------------------------------------------------------------
  // Splitting undoes joining

  lemma {:induction false} SplitPlain(s: string, rest: string)
    requires ';' !in s
    ensures Split(s) == [s]
    ensures Split(s + ";" + rest) == [s] + Split(rest)
  {
    if s == "" {
      assert s + ";" + rest == [';'] + rest;
    } else {
      SplitPlain(s[1..], rest);
      assert (s + ";" + rest)[1..] == s[1..] + ";" + rest;
      assert [s[0]] + s[1..] == s;
    }
  }

  lemma SplitSpace(s: string)
    ensures Split(" " + s) == [" " + Split(s)[0]] + Split(s)[1..]
  {
    assert (" " + s)[1..] == s;
  }

  lemma TrimPlain(s: string)
    requires Plain(s)
    ensures Trim(s) == s && Trim(" " + s) == s
  {
    assert (" " + s)[1..] == s;
  }

  /** Trimming the parts of a joined header gives back the texts, each mapped on its own. */
  function Mapped(texts: seq<string>, port: int): seq<string> {
    if texts == [] then [] else RequestPart(texts[0], port) + Mapped(texts[1..], port)
  }

  lemma PartsCons(first: string, rest: seq<string>, port: int)
    ensures RequestParts([first] + rest, port) == RequestPart(Trim(first), port) + RequestParts(rest, port)
    ensures RequestParts([], port) == []
  {
    assert ([first] + rest)[1..] == rest;
  }

  lemma {:induction false} PartsOfJoin(texts: seq<string>, port: int)
    requires texts != [] && forall i :: 0 <= i < |texts| ==> Plain(texts[i])
    ensures RequestParts(Split(Join(texts)), port) == Mapped(texts, port)
    ensures RequestParts(Split(" " + Join(texts)), port) == Mapped(texts, port)
  {
    hide RequestPart, RequestParts, Trim, TrimStart, TrimEnd, Split;
    var t, rest := texts[0], texts[1..];
    TrimPlain(t);
    if |texts| == 1 {
      SplitPlain(t, "");
      SplitSpace(t);
      PartsCons(t, [], port);
      PartsCons(" " + t, [], port);
      assert [t] + [] == [t] && [" " + t] + [] == [" " + t];
      assert Mapped(rest, port) == [];
    } else {
      PartsOfJoin(rest, port);
      var tail := " " + Join(rest);
      assert Join(texts) == t + ";" + tail;
      SplitPlain(t, tail);
      SplitSpace(Join(texts));
      assert ([t] + Split(tail))[1..] == Split(tail);
      PartsCons(t, Split(tail), port);
      PartsCons(" " + t, Split(tail), port);
    }
  }

  lemma {:induction false} TextsPlain(pairs: seq<Pair>)
    requires AllWellFormed(pairs)
    ensures |Texts(pairs)| == |pairs|
    ensures forall i :: 0 <= i < |pairs| ==> Plain(Texts(pairs)[i])
  {
    if pairs != [] {
      TextsPlain(pairs[1..]);
      PairPlain(pairs[0]);
    }
  }

  lemma PairPlain(p: Pair)
    requires WellFormed(p)
    ensures Plain(PairText(p)) && Equals(PairText(p)) == |p.name|
    ensures PairText(p)[..|p.name|] == p.name && PairText(p)[|p.name|..] == "=" + p.value
  {
    var t := PairText(p);
    assert t == p.name + ("=" + p.value);
    assert t[|p.name|] == '=';
    assert forall k :: 0 <= k < |p.name| ==> t[k] == p.name[k] && t[k] != '=';
    forall i | 0 <= i < |t| ensures t[i] != ';' && !Space(t[i]) {
      if i > |p.name| { assert t[i] == p.value[i - |p.name| - 1]; }
    }
  }

  lemma SessionPlain(s: string)
    requires s == "__Host-ipo_one_session"
    ensures Plain(s) && '=' !in s
  {
  }

  lemma CsrfPlain(s: string)
    requires s == "__Host-ipo_one_csrf_bootstrap"
    ensures Plain(s) && '=' !in s
  {
  }

  lemma MarkPlain()
    ensures Plain(SESSION) && Plain(CSRF) && Plain(MARK) && '=' !in SESSION && '=' !in CSRF && '=' !in MARK
  {
    assert Plain(MARK) && '=' !in MARK;
    SessionPlain(SESSION);
    CsrfPlain(CSRF);
    hide Plain;
  }

  lemma PortPlain(port: int)
    requires ReviewPort(port)
    ensures Plain(PortText(port)) && '=' !in PortText(port)
  {
  }

  lemma RenamedWellFormed(p: Pair, port: int)
    requires WellFormed(p)
    ensures WellFormed(Renamed(p, port))
  {
    MarkPlain();
    if ReviewPort(port) { PortPlain(port); }
  }

  lemma {:induction false} RenamedAllWellFormed(pairs: seq<Pair>, port: int)
    requires AllWellFormed(pairs)
    ensures |RenamedAll(pairs, port)| == |pairs| && AllWellFormed(RenamedAll(pairs, port))
  {
    if pairs != [] {
      RenamedWellFormed(pairs[0], port);
      RenamedAllWellFormed(pairs[1..], port);
    }
  }

  /** The header mapping works pair by pair. */
  lemma HeaderMapped(pairs: seq<Pair>, port: int)
    requires AllWellFormed(pairs) && ReviewPort(port)
    ensures RequestCookies(Join(Texts(pairs)), port) == Join(Mapped(Texts(pairs), port))
  {
    TextsPlain(pairs);
    if pairs == [] {
      assert Split("") == [""];
      assert RequestParts([""], port) == RequestPart(Trim(""), port) + RequestParts([], port);
      assert Trim("") == "" && RequestPart("", port) == [""];
    } else {
      PartsOfJoin(Texts(pairs), port);
    }
  }

  // ---------------------------------------------------------------------------------------
  // Names

  lemma NamesApart(port: int)
    requires ReviewPort(port)
    ensures var s, c := CookieName(SESSION, port), CookieName(CSRF, port);
            && s != c && !Protected(s) && !Protected(c) && Reserved(s) && Reserved(c)
            && |s| == |SESSION| + 13 && |c| == |CSRF| + 13
  {
    assert |SESSION| == 22 && |CSRF| == 29 && |MARK| == 9;
  }

  lemma PortsApart(port: int, other: int)
    requires ReviewPort(port) && ReviewPort(other) && port != other
    ensures CookieName(SESSION, port) != CookieName(SESSION, other)
    ensures CookieName(CSRF, port) != CookieName(CSRF, other)
    ensures CookieName(SESSION, port) != CookieName(CSRF, other)
  {
    NamesApart(port);
    NamesApart(other);
    SuffixApart(SESSION + MARK, PortText(port), PortText(other));
    SuffixApart(CSRF + MARK, PortText(port), PortText(other));
  }

  lemma SuffixApart(a: string, b: string, c: string)
    requires b != c
    ensures a + b != a + c
  {
    assert (a + b)[|a|..] == b && (a + c)[|a|..] == c;
  }

  lemma ReservedNotProtected(name: string)
    requires Reserved(name)
    ensures !Protected(name)
  {
    assert |SESSION + MARK| == 31 && |CSRF + MARK| == 38 && |SESSION| == 22 && |CSRF| == 29;
  }

  // ---------------------------------------------------------------------------------------
  // One pair there and back

  lemma MappedPair(p: Pair, port: int)
    requires WellFormed(p)
    ensures RequestPart(PairText(p), port) ==
              if p.name == CookieName(SESSION, port) then [PairText(Pair(SESSION, p.value))]
              else if p.name == CookieName(CSRF, port) then [PairText(Pair(CSRF, p.value))]
              else if Protected(p.name) || Reserved(p.name) then []
              else [PairText(p)]
  {
    PairPlain(p);
    assert SESSION + ("=" + p.value) == PairText(Pair(SESSION, p.value));
    assert CSRF + ("=" + p.value) == PairText(Pair(CSRF, p.value));
  }

  lemma SamePort(p: Pair, port: int)
    requires WellFormed(p) && ReviewPort(port)
    ensures var back := RequestPart(PairText(Renamed(p, port)), port);
            if Reserved(p.name) then back == [] || (|back| == 1 && |back[0]| < |PairText(p)|)
            else back == [PairText(p)]
  {
    RenamedWellFormed(p, port);
    MappedPair(Renamed(p, port), port);
    NamesApart(port);
    if Reserved(p.name) { ReservedNotProtected(p.name); }
  }

  lemma OtherPort(p: Pair, port: int, other: int)
    requires WellFormed(p) && ReviewPort(port) && ReviewPort(other) && port != other
    ensures var there := RequestPart(PairText(Renamed(p, port)), other);
            if Protected(p.name) then there == []
            else if Reserved(p.name) then there == [] || (|there| == 1 && |there[0]| < |PairText(p)|)
            else there == [PairText(p)]
  {
    RenamedWellFormed(p, port);
    MappedPair(Renamed(p, port), other);
    NamesApart(port);
    NamesApart(other);
    PortsApart(port, other);
    PortsApart(other, port);
  }

  // ---------------------------------------------------------------------------------------
  // Lists of pairs

  /** Length of the parts with their separators. */
  function Size(parts: seq<string>): nat {
    if parts == [] then 0 else |parts[0]| + 2 + Size(parts[1..])
  }

  lemma {:induction false} JoinLength(parts: seq<string>)
    ensures parts != [] ==> |Join(parts)| + 2 == Size(parts)
  {
    if |parts| > 1 {
      JoinLength(parts[1..]);
    } else if |parts| == 1 {
      assert Size(parts[1..]) == 0;
    }
  }

  lemma {:induction false} SamePortList(pairs: seq<Pair>, port: int)
    requires AllWellFormed(pairs) && ReviewPort(port)
    ensures var back := Mapped(Texts(RenamedAll(pairs, port)), port);
            if exists i :: 0 <= i < |pairs| && Reserved(pairs[i].name)
            then Size(back) < Size(Texts(pairs)) else back == Texts(pairs)
  {
    if pairs != [] {
      var rest := pairs[1..];
      SamePortList(rest, port);
      SamePort(pairs[0], port);
      var head := RequestPart(PairText(Renamed(pairs[0], port)), port);
      var tail := Mapped(Texts(RenamedAll(rest, port)), port);
      var texts := Texts(RenamedAll(pairs, port));
      assert RenamedAll(pairs, port)[1..] == RenamedAll(rest, port);
      assert texts[0] == PairText(Renamed(pairs[0], port)) && texts[1..] == Texts(RenamedAll(rest, port));
      assert Mapped(texts, port) == head + tail;
      assert Size(head + tail) == Size(head) + Size(tail) by { SizeAppend(head, tail); }
      assert Texts(pairs)[1..] == Texts(rest);
      if i :| 0 <= i < |rest| && Reserved(rest[i].name) { assert pairs[i + 1] == rest[i]; }
      if i :| 0 <= i < |pairs| && Reserved(pairs[i].name) { assert i > 0 ==> rest[i - 1] == pairs[i]; }
    }
  }

  lemma {:induction false} SizeAppend(a: seq<string>, b: seq<string>)
    ensures Size(a + b) == Size(a) + Size(b)
  {
    if a == [] {
      assert a + b == b;
    } else {
      assert (a + b)[1..] == a[1..] + b;
      SizeAppend(a[1..], b);
    }
  }

  lemma {:induction false} OtherPortList(pairs: seq<Pair>, port: int, other: int)
    requires AllWellFormed(pairs) && ReviewPort(port) && ReviewPort(other) && port != other
    ensures var there := Mapped(Texts(RenamedAll(pairs, port)), other);
            if exists i :: 0 <= i < |pairs| && Reserved(pairs[i].name)
            then Size(there) < Size(Texts(Unprotected(pairs))) else there == Texts(Unprotected(pairs))
  {
    if pairs != [] {
      var rest := pairs[1..];
      OtherPortList(rest, port, other);
      OtherPort(pairs[0], port, other);
      var head := RequestPart(PairText(Renamed(pairs[0], port)), other);
      var tail := Mapped(Texts(RenamedAll(rest, port)), other);
      var texts := Texts(RenamedAll(pairs, port));
      assert RenamedAll(pairs, port)[1..] == RenamedAll(rest, port);
      assert texts[0] == PairText(Renamed(pairs[0], port)) && texts[1..] == Texts(RenamedAll(rest, port));
      assert Mapped(texts, other) == head + tail;
      SizeAppend(head, tail);
      if Protected(pairs[0].name) {
        assert Unprotected(pairs) == Unprotected(rest);
        ProtectedNotReserved(pairs[0].name);
      } else {
        assert Unprotected(pairs)[0] == pairs[0] && Unprotected(pairs)[1..] == Unprotected(rest);
        assert Texts(Unprotected(pairs))[1..] == Texts(Unprotected(rest));
      }
      if i :| 0 <= i < |rest| && Reserved(rest[i].name) { assert pairs[i + 1] == rest[i]; }
      if i :| 0 <= i < |pairs| && Reserved(pairs[i].name) { assert i > 0 ==> rest[i - 1] == pairs[i]; }
    }
  }

  lemma ProtectedNotReserved(name: string)
    requires Protected(name)
    ensures !Reserved(name)
  {
    if Reserved(name) { ReservedNotProtected(name); }
  }

  /** Round trip, exactly: for any list of well-formed cookie pairs, what a review port sets
      comes back to it as the original list in order if and only if no pair already has a
      name of the form the ports give to protected cookies. */
  lemma RoundTripExactly(pairs: seq<Pair>, port: int)
    requires AllWellFormed(pairs) && ReviewPort(port)
    ensures RequestCookies(Join(Texts(RenamedAll(pairs, port))), port) == Join(Texts(pairs)) <==>
              forall i :: 0 <= i < |pairs| ==> !Reserved(pairs[i].name)
  {
    RenamedAllWellFormed(pairs, port);
    HeaderMapped(RenamedAll(pairs, port), port);
    SamePortList(pairs, port);
    var back := Mapped(Texts(RenamedAll(pairs, port)), port);
    if i :| 0 <= i < |pairs| && Reserved(pairs[i].name) {
      TextsPlain(pairs);
      JoinLength(back);
      JoinLength(Texts(pairs));
      NonEmptyText(pairs);
    }
  }

  lemma NonEmptyText(pairs: seq<Pair>)
    requires pairs != []
    ensures Join(Texts(pairs)) != ""
  {
    assert PairText(pairs[0]) != "";
  }

  /** A cookie that carries such a name already, here one that another port would set. */
  function Stray(): Pair {
    Pair(SESSION + MARK + PortText(8940), "v")
  }

  /** It does not come back: the port that sent it drops it from the next request. */
  lemma ReservedExample()
    ensures AllWellFormed([Stray()]) && Reserved(Stray().name)
    ensures RequestCookies(Join(Texts(RenamedAll([Stray()], 8939))), 8939) != Join(Texts([Stray()]))
  {
    MarkPlain();
    PortPlain(8940);
    assert Plain("v");
    PlainAppend(SESSION, MARK);
    PlainAppend(SESSION + MARK, PortText(8940));
    hide Plain, PortText, SESSION, MARK;
    assert Reserved([Stray()][0].name);
    RoundTripExactly([Stray()], 8939);
  }

  lemma PlainAppend(a: string, b: string)
    requires Plain(a) && Plain(b) && '=' !in a && '=' !in b
    ensures Plain(a + b) && '=' !in a + b
  {
  }

  /** Isolation, exactly: any other review port drops the protected cookies and keeps the rest
      in order if and only if no pair already has such a name. */
  lemma IsolatedExactly(pairs: seq<Pair>, port: int, other: int)
    requires AllWellFormed(pairs) && ReviewPort(port) && ReviewPort(other) && port != other
    ensures RequestCookies(Join(Texts(RenamedAll(pairs, port))), other) == Join(Texts(Unprotected(pairs))) <==>
              forall i :: 0 <= i < |pairs| ==> !Reserved(pairs[i].name)
  {
    RenamedAllWellFormed(pairs, port);
    HeaderMapped(RenamedAll(pairs, port), other);
    OtherPortList(pairs, port, other);
    var there := Mapped(Texts(RenamedAll(pairs, port)), other);
    if i :| 0 <= i < |pairs| && Reserved(pairs[i].name) {
      JoinLength(there);
      JoinLength(Texts(Unprotected(pairs)));
      NonEmptyText(Unprotected(pairs));
    }
  }

  /** A Set-Cookie value keeps everything after the first equals sign. */
  lemma SetCookieRenamesPair(p: Pair, attributes: string, port: int)
    requires WellFormed(p)
    ensures ResponseCookie(PairText(p) + attributes, port) == PairText(Renamed(p, port)) + attributes
  {
    var c := PairText(p) + attributes;
    assert c == p.name + ("=" + p.value + attributes);
    FirstEquals(p.name, "=" + p.value + attributes);
    assert c[..|p.name|] == p.name && c[|p.name|..] == "=" + p.value + attributes;
    assert PairText(Renamed(p, port)) + attributes == CookieName(p.name, port) + ("=" + p.value + attributes);
  }

  lemma {:induction false} FirstEquals(name: string, tail: string)
    requires '=' !in name && tail != "" && tail[0] == '='
    ensures Equals(name + tail) == |name|
  {
    var i := Equals(name + tail);
    assert (name + tail)[|name|] == '=';
    assert forall k :: 0 <= k < |name| ==> (name + tail)[k] == name[k];
  }

  /** Renaming is idempotent on every string, so a header that passes through both the wrapped
      `setHeader` and the wrapped `writeHead` is renamed once. */
  lemma RenameTwice(cookie: string, port: int)
    ensures ResponseCookie(ResponseCookie(cookie, port), port) == ResponseCookie(cookie, port)
  {
    var i := Equals(cookie);
    if ReviewPort(port) && 0 < i < |cookie| {
      var name, tail := cookie[..i], cookie[i..];
      assert cookie == name + tail;
      if Protected(name) {
        NamesApart(port);
        MarkPlain();
        PortPlain(port);
        var renamed := CookieName(name, port);
        FirstEquals(renamed, tail);
        assert (renamed + tail)[..|renamed|] == renamed && (renamed + tail)[|renamed|..] == tail;
      }
    }
  }
}
