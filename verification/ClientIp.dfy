/** The rate-limit key of portal/lib/onlytty_web/client_ip.ex: the client address at a fixed
    distance from the trusted, right-hand end of X-Forwarded-For. */
module ClientIp {
  import opened Base

  datatype Ip = V4(a: nat, b: nat, c: nat, d: nat) | V6(groups: seq<nat>)

  datatype Setting = Direct | Edge | Hops(n: nat)

  /** What the runtime library decides: which characters trim removes, and how an address reads. */
  datatype Library = Library(space: char -> bool, parse: string -> Option<Ip>)

  // ---- Splitting, trimming, dropping empties -------------------------------------

  /** Pieces between commas; there is always at least one. */
  function Split(s: string): (r: seq<string>)
    ensures r != []
  {
    if s == [] then [""] else Glue(s[0], Split(s[1..]))
  }

  /** A comma opens a new piece; any other character belongs to the first one. */
  function Glue(c: char, pieces: seq<string>): (r: seq<string>)
    requires pieces != []
    ensures r != []
  {
    if c == ',' then [""] + pieces else [[c] + pieces[0]] + pieces[1..]
  }

  function TrimLeft(space: char -> bool, s: string): string {
    if s != [] && space(s[0]) then TrimLeft(space, s[1..]) else s
  }

  function TrimRight(space: char -> bool, s: string): string {
    if s != [] && space(s[|s| - 1]) then TrimRight(space, s[..|s| - 1]) else s
  }

  function Trim(space: char -> bool, s: string): string {
    TrimRight(space, TrimLeft(space, s))
  }

  function FlatMap(f: string -> seq<string>, headers: seq<string>): seq<string> {
    if headers == [] then [] else f(headers[0]) + FlatMap(f, headers[1..])
  }

  function Kept(space: char -> bool): string -> seq<string> {
    (piece: string) => if Trim(space, piece) == "" then [] else [Trim(space, piece)]
  }

  function Keep(space: char -> bool, pieces: seq<string>): seq<string> {
    FlatMap(Kept(space), pieces)
  }

  function Entries(space: char -> bool, headers: seq<string>): seq<string> {
    Keep(space, FlatMap(Split, headers))
  }

  // ---- The key --------------------------------------------------------------------------

  function StripBrackets(s: string): string {
    TrimRight(c => c == ']', TrimLeft(c => c == '[', s))
  }

  function FromForwardedFor(lib: Library, headers: seq<string>, hops: nat): Option<Ip> {
    Pick(lib, Entries(lib.space, headers), hops)
  }

  function Pick(lib: Library, entries: seq<string>, hops: nat): Option<Ip> {
    var idx := |entries| - 1 - hops;
    if idx >= 0 then lib.parse(StripBrackets(entries[idx])) else None
  }

  function ClientIp(lib: Library, setting: Setting, peer: Ip, headers: seq<string>): Ip {
    match setting
    case Edge => Or(FromForwardedFor(lib, headers, 0), peer)
    case Hops(n) => if n > 0 then Or(FromForwardedFor(lib, headers, n), peer) else peer
    case Direct => peer
  }

  function Or(found: Option<Ip>, peer: Ip): Ip {
    match found case Some(ip) => ip case None => peer
  }

  function Mask(ip: Ip): Ip {
    match ip
    case V6(groups) => V6(seq(|groups|, i requires 0 <= i < |groups| => if i < 4 then groups[i] else 0))
    case V4(_, _, _, _) => ip
  }

  function Resolve(lib: Library, setting: Setting, peer: Ip, headers: seq<string>): Ip {
    Mask(ClientIp(lib, setting, peer, headers))
  }

  // ---- Only the right end counts -----------------------------------------------------------

  lemma GlueAppend(c: char, p: seq<string>, q: seq<string>)
    requires p != []
    ensures Glue(c, p + q) == Glue(c, p) + q
  {
  }

  lemma {:induction false} SplitAppend(a: string, b: string)
    ensures Split(a + "," + b) == Split(a) + Split(b)
  {
    var s := a + "," + b;
    if a == [] {
      assert s[0] == ',' && s[1..] == b;
    } else {
      SplitAppend(a[1..], b);
      assert s[0] == a[0] && s[1..] == a[1..] + "," + b;
      GlueAppend(a[0], Split(a[1..]), Split(b));
    }
  }

  lemma FlatMapCons(f: string -> seq<string>, h: string, rest: seq<string>)
    ensures FlatMap(f, [h] + rest) == f(h) + FlatMap(f, rest)
  {
  }

  lemma {:induction false} FlatMapAppend(f: string -> seq<string>, a: seq<string>, b: seq<string>)
    ensures FlatMap(f, a + b) == FlatMap(f, a) + FlatMap(f, b)
  {
    if a == [] {
      assert a + b == b;
    } else {
      var h, rest := a[0], a[1..];
      FlatMapAppend(f, rest, b);
      assert a + b == [h] + (rest + b);
      FlatMapCons(f, h, rest + b);
      assert FlatMap(f, a) == f(h) + FlatMap(f, rest);
      Associate(f(h), FlatMap(f, rest), FlatMap(f, b));
    }
  }

  lemma Associate(a: seq<string>, b: seq<string>, c: seq<string>)
    ensures a + (b + c) == a + b + c
  {
  }

  lemma FlatMapOne(f: string -> seq<string>, h: string)
    ensures FlatMap(f, [h]) == f(h)
  {
  }

  lemma EntriesAppend(space: char -> bool, a: seq<string>, b: seq<string>)
    ensures Entries(space, a + b) == Entries(space, a) + Entries(space, b)
  {
    FlatMapAppend(Split, a, b);
    FlatMapAppend(Kept(space), FlatMap(Split, a), FlatMap(Split, b));
  }

  /** How many entries the setting reaches over, counted from the right. */
  function Needed(setting: Setting): nat {
    match setting case Direct => 0 case Edge => 1 case Hops(n) => if n == 0 then 0 else n + 1
  }

  /** Entries on the left never change the key once the right end is long enough. */
  lemma LeftIsIgnored(lib: Library, setting: Setting, peer: Ip, left: seq<string>, right: seq<string>,
                      all: seq<string>)
    requires Entries(lib.space, all) == Entries(lib.space, left) + Entries(lib.space, right)
    requires |Entries(lib.space, right)| >= Needed(setting)
    ensures Resolve(lib, setting, peer, all) == Resolve(lib, setting, peer, right)
  {
    var l, r := Entries(lib.space, left), Entries(lib.space, right);
    match setting
    case Edge => PickFromRight(lib, l, r, 0);
    case Hops(n) => if n > 0 { PickFromRight(lib, l, r, n); }
    case Direct =>
  }

  lemma PickFromRight(lib: Library, left: seq<string>, right: seq<string>, hops: nat)
    requires hops < |right|
    ensures Pick(lib, left + right, hops) == Pick(lib, right, hops)
  {
  }

  lemma TextInFront(space: char -> bool, text: string, first: string)
    ensures Entries(space, [text + "," + first]) == Entries(space, [text]) + Entries(space, [first])
  {
    SplitAppend(text, first);
    FlatMapOne(Split, text + "," + first);
    FlatMapOne(Split, text);
    FlatMapOne(Split, first);
    FlatMapAppend(Kept(space), Split(text), Split(first));
  }

  lemma Regroup(a: seq<string>, t: seq<string>, f: seq<string>, r: seq<string>)
    ensures a + ((t + f) + r) == (a + t) + (f + r)
  {
  }

  lemma ForgedInFront(space: char -> bool, forged: seq<string>, text: string, first: string, rest: seq<string>)
    ensures Entries(space, forged + ([text + "," + first] + rest))
         == Entries(space, forged + [text]) + Entries(space, [first] + rest)
  {
    TextInFront(space, text, first);
    EntriesAppend(space, forged, [text + "," + first] + rest);
    EntriesAppend(space, [text + "," + first], rest);
    EntriesAppend(space, [first], rest);
    EntriesAppend(space, forged, [text]);
    Regroup(Entries(space, forged), Entries(space, [text]), Entries(space, [first]), Entries(space, rest));
  }

  /** A client that prepends headers of its own, or any text and a comma to the first trusted
      header, does not move its key: the trusted part alone decides, when it has an entry for
      every hop and the client. */
  lemma PrependingIsHarmless(lib: Library, setting: Setting, peer: Ip, forged: seq<string>, text: string,
                             first: string, rest: seq<string>)
    requires |Entries(lib.space, [first] + rest)| >= Needed(setting)
    ensures Resolve(lib, setting, peer, forged + ([text + "," + first] + rest))
         == Resolve(lib, setting, peer, [first] + rest)
  {
    ForgedInFront(lib.space, forged, text, first, rest);
    LeftIsIgnored(lib, setting, peer, forged + [text], [first] + rest, forged + ([text + "," + first] + rest));
  }

  /** The key is the peer's exactly as far as the list is too short or its entry unreadable. */
  lemma ShortListsFallBack(lib: Library, setting: Setting, peer: Ip, headers: seq<string>)
    ensures var entries := Entries(lib.space, headers);
            var n := Needed(setting);
            ClientIp(lib, setting, peer, headers) ==
            if n == 0 || |entries| < n then peer
            else match lib.parse(StripBrackets(entries[|entries| - n])) case Some(ip) => ip case None => peer
  {
  }

  /** Entries are what is left of the comma-separated pieces: never empty, never padded. */
  lemma {:induction false} EntriesAreTrimmed(space: char -> bool, pieces: seq<string>, i: nat)
    requires i < |Keep(space, pieces)|
    ensures var e := Keep(space, pieces)[i]; e != "" && !space(e[0]) && !space(e[|e| - 1])
  {
    var t := Trim(space, pieces[0]);
    TrimEnds(space, pieces[0]);
    if t == "" {
      EntriesAreTrimmed(space, pieces[1..], i);
    } else if i > 0 {
      EntriesAreTrimmed(space, pieces[1..], i - 1);
    }
  }

  lemma {:induction false} TrimRightEnds(space: char -> bool, s: string)
    ensures var t := TrimRight(space, s); t <= s && (t != "" ==> !space(t[|t| - 1]))
  {
    if s != [] && space(s[|s| - 1]) { TrimRightEnds(space, s[..|s| - 1]); }
  }

  lemma {:induction false} TrimLeftStarts(space: char -> bool, s: string)
    ensures var t := TrimLeft(space, s); t != "" ==> !space(t[0])
  {
    if s != [] && space(s[0]) { TrimLeftStarts(space, s[1..]); }
  }

  lemma TrimEnds(space: char -> bool, s: string)
    ensures var t := Trim(space, s); t != "" ==> !space(t[0]) && !space(t[|t| - 1])
  {
    TrimLeftStarts(space, s);
    TrimRightEnds(space, TrimLeft(space, s));
  }

  // ---- Buckets ------------------------------------------------------------------------------

  predicate WellFormed(ip: Ip) { ip.V6? ==> |ip.groups| == 8 }

  /** Two addresses share a bucket exactly when they are one IPv4 address, or two IPv6
      addresses with the same first four groups. */
  lemma SameBucket(x: Ip, y: Ip)
    requires WellFormed(x) && WellFormed(y)
    ensures Mask(x) == Mask(y) <==> x == y || (x.V6? && y.V6? && x.groups[..4] == y.groups[..4])
  {
    if x.V6? && y.V6? {
      var m, n := Mask(x).groups, Mask(y).groups;
      assert m[..4] == x.groups[..4] && n[..4] == y.groups[..4];
      if x.groups[..4] == y.groups[..4] {
        forall i | 0 <= i < 8 ensures m[i] == n[i] {
          if i < 4 { assert x.groups[..4][i] == y.groups[..4][i]; }
        }
        assert m == n;
      }
    }
  }

  /** The key is the client's own address, or for IPv6 its first four groups with the rest zero. */
  lemma ResolvesToBucket(lib: Library, setting: Setting, peer: Ip, headers: seq<string>)
    ensures var ip, key := ClientIp(lib, setting, peer, headers), Resolve(lib, setting, peer, headers);
            && (ip.V4? ==> key == ip)
            && (ip.V6? ==> key.V6? && |key.groups| == |ip.groups|
                           && forall i | 0 <= i < |ip.groups| :: key.groups[i] == if i < 4 then ip.groups[i] else 0)
  {
  }

  /** Two requests are counted together exactly if their clients are one IPv4 address, or IPv6
      addresses with the same first four groups. */
  lemma CountedTogether(lib: Library, setting: Setting, p: Ip, hs: seq<string>, q: Ip, gs: seq<string>)
    requires WellFormed(ClientIp(lib, setting, p, hs)) && WellFormed(ClientIp(lib, setting, q, gs))
    ensures var x, y := ClientIp(lib, setting, p, hs), ClientIp(lib, setting, q, gs);
            Resolve(lib, setting, p, hs) == Resolve(lib, setting, q, gs)
            <==> x == y || (x.V6? && y.V6? && x.groups[..4] == y.groups[..4])
  {
    SameBucket(ClientIp(lib, setting, p, hs), ClientIp(lib, setting, q, gs));
  }

  // ---- What the pieces are -----------------------------------------------------------------

  function Join(pieces: seq<string>): string
    requires pieces != []
  {
    if |pieces| == 1 then pieces[0] else pieces[0] + "," + Join(pieces[1..])
  }

  lemma JoinGlue(c: char, pieces: seq<string>)
    requires pieces != []
    ensures Join(Glue(c, pieces)) == [c] + Join(pieces)
  {
    if c == ',' {
      assert ([""] + pieces)[1..] == pieces;
      assert "" + "," + Join(pieces) == [c] + Join(pieces);
    } else {
      assert ([[c] + pieces[0]] + pieces[1..])[1..] == pieces[1..];
      if |pieces| > 1 {
        assert [c] + pieces[0] + "," + Join(pieces[1..]) == [c] + (pieces[0] + "," + Join(pieces[1..]));
      }
    }
  }

  /** The pieces hold no comma, and put back together with commas they are the header. */
  lemma {:induction false} JoinSplit(s: string)
    ensures Join(Split(s)) == s && forall p | p in Split(s) :: ',' !in p
  {
    if s != [] {
      JoinSplit(s[1..]);
      JoinGlue(s[0], Split(s[1..]));
    }
  }

  lemma {:induction false} TrimLeftIs(space: char -> bool, s: string) returns (a: nat)
    ensures a <= |s| && TrimLeft(space, s) == s[a..] && (a < |s| ==> !space(s[a]))
    ensures forall i | 0 <= i < a :: space(s[i])
  {
    if s != [] && space(s[0]) {
      a := TrimLeftIs(space, s[1..]);
      a := a + 1;
    } else {
      a := 0;
    }
  }

  lemma {:induction false} TrimRightIs(space: char -> bool, s: string) returns (b: nat)
    ensures b <= |s| && TrimRight(space, s) == s[..b] && (b > 0 ==> !space(s[b - 1]))
    ensures forall i | b <= i < |s| :: space(s[i])
  {
    if s != [] && space(s[|s| - 1]) {
      b := TrimRightIs(space, s[..|s| - 1]);
    } else {
      b := |s|;
    }
  }

  /** Trimming takes off space at the two ends and nothing else. */
  lemma TrimMeaning(space: char -> bool, s: string) returns (a: nat, b: nat)
    ensures a <= b <= |s| && Trim(space, s) == s[a..b]
    ensures forall i | 0 <= i < a || b <= i < |s| :: space(s[i])
    ensures a < b ==> !space(s[a]) && !space(s[b - 1])
  {
    a := TrimLeftIs(space, s);
    var n := TrimRightIs(space, s[a..]);
    b := a + n;
    forall i | b <= i < |s| ensures space(s[i]) { assert s[a..][i - a] == s[i]; }
    if a < b { assert s[a..][n - 1] == s[b - 1]; }
  }

  /** A piece of nothing but space is dropped; any other becomes one entry. */
  lemma KeptMeaning(space: char -> bool, piece: string)
    ensures Kept(space)(piece) == if forall i | 0 <= i < |piece| :: space(piece[i]) then [] else [Trim(space, piece)]
  {
    var a, b := TrimMeaning(space, piece);
    if a < b { assert !space(piece[a]); }
  }

  /** Brackets are taken off where an IPv6 literal has them, and nowhere else. */
  lemma StripMeaning(s: string) returns (a: nat, b: nat)
    ensures a <= b <= |s| && StripBrackets(s) == s[a..b]
    ensures (forall i | 0 <= i < a :: s[i] == '[') && (forall i | b <= i < |s| :: s[i] == ']')
    ensures a < b ==> s[a] != '[' && s[b - 1] != ']'
  {
    a := TrimLeftIs(c => c == '[', s);
    var n := TrimRightIs(c => c == ']', s[a..]);
    b := a + n;
    forall i | b <= i < |s| ensures s[i] == ']' { assert s[a..][i - a] == s[i]; }
    if a < b { assert s[a..][n - 1] == s[b - 1]; }
  }
}
