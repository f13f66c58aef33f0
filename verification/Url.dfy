/**
 URLs of contents (core/url.c, core/url2.c): fields, their packed forms and the parsing of
 these, with the packed forms kept in the object until a field changes.
 */
module Url {
  import opened Basics
  import opened Percent

  const NS_LIMIT: nat := 64
  const ACCOUNT_LIMIT: nat := 64
  const USER_LIMIT: nat := 1024
  const VERSION_LIMIT: nat := 24

  datatype Fields = Fields(ns: Text, account: Text, user: Text, version: Text, path: Option<Text>, content: Option<Text>)

  const EMPTY := Fields([], [], [], [], None, None)

  /** What fits in a buffer, with its final zero. */
  function Truncated(s: Text, limit: nat): Text
    requires limit > 0
  {
    if |s| < limit then s else s[..limit - 1]
  }

  predicate Fits(f: Fields) {
    |f.ns| < NS_LIMIT && |f.account| < ACCOUNT_LIMIT && |f.user| < USER_LIMIT && |f.version| < VERSION_LIMIT
  }

  /** oio_str_ishexa1 */
  predicate IsHexa(s: Text) { s != [] && |s| % 2 == 0 && forall i :: 0 <= i < |s| ==> HexValue(s[i]) < 16 }

  // ---- Splitting -----------------------------------------------------------------------------------------

  /** The position of the first such byte, or the length. */
  function Find(s: Text, b: Byte): (i: nat)
    ensures i <= |s| && (i < |s| ==> s[i] == b) && forall j :: 0 <= j < i ==> s[j] != b
  {
    if s == [] || s[0] == b then 0 else 1 + Find(s[1..], b)
  }

  /** The pieces between slashes, at most `n` of them. */
  function SplitMax(s: Text, n: nat): (r: seq<Text>)
    requires n > 0
    ensures 0 < |r| <= n
    decreases n
  {
    var i := Find(s, SLASH);
    if n == 1 || i == |s| then [s] else [s[..i]] + SplitMax(s[i + 1..], n - 1)
  }

  /** g_strsplit */
  function Split(s: Text, n: nat): seq<Text>
    requires n > 0
  {
    if s == [] then [] else SplitMax(s, n)
  }

  function Join(ts: seq<Text>): Text {
    if ts == [] then [] else if |ts| == 1 then ts[0] else ts[0] + [SLASH] + Join(ts[1..])
  }

  ghost predicate AllPlain(ts: seq<Text>) { forall i :: 0 <= i < |ts| ==> Plain(ts[i]) }

  lemma FindPlain(a: Text, b: Byte, rest: Text)
    requires forall i :: 0 <= i < |a| ==> a[i] != b
    ensures Find(a + [b] + rest, b) == |a| && Find(a, b) == |a|
  {
    var s := a + [b] + rest;
    var i := Find(s, b);
    assert s[|a|] == b;
    assert forall j :: 0 <= j < |a| ==> s[j] == a[j];
  }

  /** Joined pieces are split as they were. */
  lemma {:induction false} SplitJoin(ts: seq<Text>, n: nat)
    requires 0 < |ts| <= n && AllPlain(ts)
    ensures SplitMax(Join(ts), n) == ts
  {
    hide Find, SplitMax;
    if |ts| == 1 {
      SplitLast(ts[0], n);
      assert ts == [ts[0]];
    } else {
      var rest := Join(ts[1..]);
      SplitJoin(ts[1..], n - 1);
      SplitOnce(ts[0], rest, n);
      assert ts == [ts[0]] + ts[1..];
    }
  }

  lemma SplitLast(a: Text, n: nat)
    requires Plain(a) && n > 0
    ensures SplitMax(a, n) == [a]
  {
    hide Find;
    FindPlain(a, SLASH, []);
  }

  lemma SplitOnce(a: Text, rest: Text, n: nat)
    requires Plain(a) && n > 1
    ensures SplitMax(a + [SLASH] + rest, n) == [a] + SplitMax(rest, n - 1)
  {
    hide Find;
    FindPlain(a, SLASH, rest);
    var s := a + [SLASH] + rest;
    assert s[..|a|] == a && s[|a| + 1..] == rest;
  }

  // ---- Packed forms ------------------------------------------------------------------------------------------

  /** _pack_fullpath */
  function PackFullpath(f: Fields, keep: Keep): Option<Text> {
    if f.account == [] || f.user == [] || f.path.None? || f.version == [] || f.content.None? then None
    else Some(Join([Escape(f.account, keep), Escape(f.user, keep), Escape(f.path.value, keep),
                    Escape(f.version, keep), Escape(f.content.value, keep)]))
  }

  const ID_OPTION: Text := [0x69, 0x64, 0x3D]
  const VERSION_OPTION: Text := [0x76, 0x3D]

  /** The options of the whole form, which its parsing ignores. */
  function Options(f: Fields, keep: Keep): Text {
    (if f.content.Some? then [QUERY] + ID_OPTION + Escape(f.content.value, keep) else [])
    + (if f.version == [] then []
       else [if f.content.Some? then AMPERSAND else QUERY] + VERSION_OPTION + Escape(f.version, keep))
  }

  predicate HasContainer(f: Fields) { f.ns != [] && f.account != [] && f.user != [] }

  /** The pieces of the whole form. */
  function Pieces(f: Fields, keep: Keep): seq<Text> {
    if f.ns == [] then []
    else if f.account == [] then [Escape(f.ns, keep)]
    else if f.user == [] then [Escape(f.ns, keep), Escape(f.account, keep)]
    else
      var container := [Escape(f.ns, keep), Escape(f.account, keep), Escape(f.user, keep)];
      if f.path.None? then container + [[]] else container + [Escape(f.version, keep), Escape(f.path.value, keep)]
  }

  /** _pack_url */
  function PackWhole(f: Fields, keep: Keep): Text {
    Join(Pieces(f, keep)) + (if HasContainer(f) then Options(f, keep) else [])
  }

  // ---- Parsing -------------------------------------------------------------------------------------------------

  function SkipSlashes(s: Text): Text { if s != [] && s[0] == SLASH then SkipSlashes(s[1..]) else s }

  /** The path that oio_requri_parse finds: up to the query or, without one, to the fragment. */
  function PathOf(s: Text): (r: Text)
    ensures r <= s && QUERY !in r && (QUERY !in s ==> FRAGMENT !in r)
    ensures |r| < |s| ==> s[|r|] == if QUERY in s then QUERY else FRAGMENT
  {
    var q := Find(s, QUERY);
    if q < |s| then s[..q] else s[..Find(s, FRAGMENT)]
  }

  /** _copy, of a piece into a buffer */
  function Copied(was: Text, piece: Text, limit: nat, unescape: bool): Text
    requires limit > 0
  {
    if !unescape then Truncated(piece, limit)
    else
      var t := Unescape(piece);
      if t.None? then was else Truncated(t.value, limit)
  }

  function FromPieces(ts: seq<Text>, unescape: bool): Fields {
    Fields(
      if |ts| > 0 then Copied([], ts[0], NS_LIMIT, unescape) else [],
      if |ts| > 1 then Copied([], ts[1], ACCOUNT_LIMIT, unescape) else [],
      if |ts| > 2 then Copied([], ts[2], USER_LIMIT, unescape) else [],
      if |ts| > 3 then Copied([], ts[3], VERSION_LIMIT, unescape) else [],
      if |ts| <= 4 then None else if unescape then Unescape(ts[4]) else Some(ts[4]),
      None)
  }

  /** _check_parsed_url */
  predicate Checked(f: Fields) { HasContainer(f) && (f.path.None? || f.path.value != []) }

  /** _parse_url */
  function Parse(s: Text, unescape: bool): Option<Fields> {
    var f := FromPieces(Split(PathOf(SkipSlashes(s)), 5), unescape);
    if Checked(f) then Some(f) else None
  }

  lemma CopiedBack(s: Text, keep: Keep, limit: nat)
    requires |s| < limit
    ensures Copied([], Escape(s, keep), limit, true) == s
  {
    EscapeRoundTrip(s, keep);
  }

  lemma PiecesPlain(f: Fields, keep: Keep)
    ensures AllPlain(Pieces(f, keep)) && |Pieces(f, keep)| <= 5
  {
    hide Escape;
    EscapeIsPlain(f.ns, keep);
    EscapeIsPlain(f.account, keep);
    EscapeIsPlain(f.user, keep);
    EscapeIsPlain(f.version, keep);
    if f.path.Some? { EscapeIsPlain(f.path.value, keep); }
  }

  lemma {:induction false} JoinPlain(ts: seq<Text>)
    requires AllPlain(ts)
    ensures forall i :: 0 <= i < |Join(ts)| ==> Join(ts)[i] != QUERY && Join(ts)[i] != FRAGMENT
  {
    if |ts| > 1 { JoinPlain(ts[1..]); }
  }

  lemma PathBefore(a: Text, b: Text)
    requires forall i :: 0 <= i < |a| ==> a[i] != QUERY && a[i] != FRAGMENT
    requires b == [] || b[0] == QUERY
    ensures PathOf(a + b) == a
  {
    hide Find;
    if b == [] {
      assert a + b == a;
      assert Find(a, QUERY) == |a| && Find(a, FRAGMENT) == |a|;
    } else {
      FindPlain(a, QUERY, b[1..]);
      assert a + b == a + [QUERY] + b[1..];
    }
  }

  /** The whole form is parsed into its pieces. */
  lemma WholeIsSplit(f: Fields, keep: Keep)
    requires f.ns != []
    ensures Split(PathOf(SkipSlashes(PackWhole(f, keep))), 5) == Pieces(f, keep)
  {
    hide Escape, Find, PathOf, SplitMax;
    var ts := Pieces(f, keep);
    var a, b := Join(ts), if HasContainer(f) then Options(f, keep) else [];
    PiecesPlain(f, keep);
    JoinPlain(ts);
    PathBefore(a, b);
    EscapeIsPlain(f.ns, keep);
    assert a[0] == ts[0][0] != SLASH;
    SplitJoin(ts, 5);
  }

  /** The whole form recovers the namespace, the account, the user, the version and the path of a URL
      exactly when it names a container and has a path that is not empty, or neither path nor version. */
  lemma WholeRoundTrip(f: Fields, keep: Keep)
    requires Fits(f)
    ensures Parse(PackWhole(f, keep), true) == Some(f.(content := None))
      <==> HasContainer(f) && (if f.path.Some? then f.path.value != [] else f.version == [])
  {
    hide Escape, Unescape, Split, PathOf, SkipSlashes, PackWhole, Copied;
    if f.ns != [] {
      WholeIsSplit(f, keep);
      CopiedBack(f.ns, keep, NS_LIMIT);
      CopiedBack(f.account, keep, ACCOUNT_LIMIT);
      CopiedBack(f.user, keep, USER_LIMIT);
      CopiedBack(f.version, keep, VERSION_LIMIT);
      NothingCopied();
      if f.path.Some? { EscapeRoundTrip(f.path.value, keep); }
    } else {
      EmptyWhole(f, keep);
    }
  }

  /** Leading slashes are skipped. */
  lemma {:induction false} SlashesAreSkipped(slashes: Text, s: Text, unescape: bool)
    requires forall i :: 0 <= i < |slashes| ==> slashes[i] == SLASH
    ensures Parse(slashes + s, unescape) == Parse(s, unescape)
  {
    hide PathOf, FromPieces;
    if slashes == [] {
      assert slashes + s == s;
    } else {
      SlashesAreSkipped(slashes[1..], s, unescape);
      assert (slashes + s)[1..] == slashes[1..] + s;
    }
  }

  /** The pieces of a raw form: the path keeps its slashes. */
  lemma RawIsSplit(ns: Text, account: Text, user: Text, version: Text, path: Text)
    requires Plain(ns) && Plain(account) && Plain(user) && Plain(version)
    ensures SplitMax(Join([ns, account, user, version, path]), 5) == [ns, account, user, version, path]
  {
    hide SplitMax, Plain, Join;
    var d := version + [SLASH] + path;
    var c := user + [SLASH] + d;
    var b := account + [SLASH] + c;
    SplitOnce(ns, b, 5);
    SplitOnce(account, c, 4);
    SplitOnce(user, d, 3);
    SplitOnce(version, path, 2);
    JoinedFive([ns, account, user, version, path]);
    SplitOne(path);
  }

  lemma SplitOne(s: Text)
    ensures SplitMax(s, 1) == [s]
  {
  }

  lemma JoinedFive(ts: seq<Text>)
    requires |ts| == 5
    ensures Join(ts) == ts[0] + [SLASH] + (ts[1] + [SLASH] + (ts[2] + [SLASH] + (ts[3] + [SLASH] + ts[4])))
  {
    assert ts[1..][1..] == ts[2..] && ts[2..][1..] == ts[3..] && ts[3..][1..] == [ts[4]];
    assert Join(ts[3..]) == ts[3] + [SLASH] + Join(ts[3..][1..]);
    assert Join(ts[2..]) == ts[2] + [SLASH] + Join(ts[2..][1..]);
    assert Join(ts[1..]) == ts[1] + [SLASH] + Join(ts[1..][1..]);
  }

  /** Without unescaping, a form is parsed as it reads, and the slashes of its path belong to it. */
  lemma RawRoundTrip(f: Fields)
    requires Fits(f) && Plain(f.ns) && Plain(f.account) && Plain(f.user) && Plain(f.version)
    requires HasContainer(f) && f.path.Some? && f.path.value != []
    requires forall i :: 0 <= i < |f.path.value| ==> f.path.value[i] != QUERY && f.path.value[i] != FRAGMENT
    ensures Parse(Join([f.ns, f.account, f.user, f.version, f.path.value]), false) == Some(f.(content := None))
  {
    hide SplitMax, Find, PathOf, Join;
    var ts := [f.ns, f.account, f.user, f.version, f.path.value];
    var s := Join(ts);
    RawIsSplit(f.ns, f.account, f.user, f.version, f.path.value);
    JoinedFive(ts);
    assert s[0] == f.ns[0];
    PathBefore(s, []);
    assert s + [] == s;
  }

  lemma NothingCopied()
    ensures Copied([], [], VERSION_LIMIT, true) == []
  {
  }

  lemma EmptyWhole(f: Fields, keep: Keep)
    requires f.ns == []
    ensures Parse(PackWhole(f, keep), true) == None
  {
    assert PackWhole(f, keep) == [];
  }

  // ---- Query tokens -----------------------------------------------------------------------------------------------

  /** The query that oio_requri_parse finds; a fragment leaves its mark in it. */
  function Query(s: Text): Text {
    var q := Find(s, QUERY);
    if q == |s| then []
    else
      var rest := s[q + 1..];
      var a := Find(rest, FRAGMENT);
      if a < |rest| then rest[..a + 1] else rest
  }

  /** The pieces between ampersands. */
  function Tokens(s: Text): seq<Text>
    decreases |s|
  {
    if s == [] then []
    else
      var i := Find(s, AMPERSAND);
      if i == |s| then [s] else if i + 1 == |s| then [s[..i], []] else [s[..i]] + Tokens(s[i + 1..])
  }

  /** A plus stands for a space. */
  function Spaced(t: Text): Text { seq(|t|, i requires 0 <= i < |t| => if t[i] == PLUS then SPACE else t[i]) }

  function UnescapeAll(ts: seq<Text>): seq<Option<Text>> {
    seq(|ts|, i requires 0 <= i < |ts| => Unescape(Spaced(ts[i])))
  }

  /** The tokens of oio_requri_parse */
  function QueryTokens(s: Text): seq<Option<Text>> { UnescapeAll(Tokens(Query(s))) }

  /** The bytes of some characters. */
  function Ascii(s: string): Text
    requires forall i :: 0 <= i < |s| ==> 0 < s[i] as int < 128
  {
    seq(|s|, i requires 0 <= i < |s| => s[i] as int)
  }

  lemma OptionNames()
    ensures Ascii("id=") == ID_OPTION && Ascii("v=") == VERSION_OPTION
    ensures Plain(ID_OPTION) && Plain(VERSION_OPTION)
  {
  }

  lemma OptionUnescapes(name: Text, v: Text, keep: Keep)
    requires PERCENT !in name && PLUS !in name
    ensures Unescape(Spaced(name + Escape(v, keep))) == Some(name + v)
  {
    EscapeFromHasNoPlus(v, keep, 0);
    assert Spaced(name + Escape(v, keep)) == name + Escape(v, keep);
    EscapeRoundTrip(v, keep);
    UnescapeAfter(name, Escape(v, keep));
  }

  lemma TwoTokens(a: Text, b: Text)
    requires Plain(a) && Plain(b) && b != []
    ensures Tokens(a + [AMPERSAND] + b) == [a, b] && Tokens(b) == [b]
  {
    hide Find;
    var s := a + [AMPERSAND] + b;
    FindPlain(a, AMPERSAND, b);
    FindPlain(b, AMPERSAND, []);
    assert s[..|a|] == a && s[|a| + 1..] == b;
  }

  lemma NoToken()
    ensures UnescapeAll(Tokens([])) == []
  {
  }

  lemma QueryAfter(a: Text, b: Text)
    requires forall i :: 0 <= i < |a| ==> a[i] != QUERY
    requires forall i :: 0 <= i < |b| ==> b[i] != FRAGMENT
    ensures Query(a + [QUERY] + b) == b && Query(a) == []
  {
    hide Find;
    FindPlain(a, QUERY, b);
    FindPlain(b, FRAGMENT, []);
    assert (a + [QUERY] + b)[|a| + 1..] == b;
  }

  lemma OptionPlain(name: Text, v: Text, keep: Keep)
    requires Plain(name)
    ensures Plain(name + Escape(v, keep))
  {
    hide Escape;
    EscapeIsPlain(v, keep);
  }

  /** The query of the whole form of a URL gives its content and its version, unescaped. */
  lemma OptionsAreTokens(f: Fields, keep: Keep)
    requires HasContainer(f)
    ensures QueryTokens(PackWhole(f, keep))
      == (if f.content.Some? then [Some(Ascii("id=") + f.content.value)] else [])
         + (if f.version != [] then [Some(Ascii("v=") + f.version)] else [])
  {
    hide Escape, Unescape, Spaced, Query, Tokens, Pieces, Join, Plain, UnescapeAll, Ascii;
    OptionNames();
    var path := Join(Pieces(f, keep));
    PiecesPlain(f, keep);
    JoinPlain(Pieces(f, keep));
    if f.content.None? && f.version == [] {
      assert path + Options(f, keep) == path;
      QueryAfter(path, []);
      NoToken();
    } else {
      OptionTokens(f, keep);
      assert path + Options(f, keep) == path + [QUERY] + Listed(f, keep);
      QueryAfter(path, Listed(f, keep));
    }
  }

  /** The options, without the mark of the query. */
  function Listed(f: Fields, keep: Keep): Text
    requires f.content.Some? || f.version != []
  {
    var b := VERSION_OPTION + Escape(f.version, keep);
    if f.content.None? then b
    else
      var a := ID_OPTION + Escape(f.content.value, keep);
      if f.version == [] then a else a + [AMPERSAND] + b
  }

  lemma OptionTokens(f: Fields, keep: Keep)
    requires f.content.Some? || f.version != []
    ensures Options(f, keep) == [QUERY] + Listed(f, keep)
    ensures forall i :: 0 <= i < |Listed(f, keep)| ==> Listed(f, keep)[i] != FRAGMENT
    ensures UnescapeAll(Tokens(Listed(f, keep)))
      == (if f.content.Some? then [Some(ID_OPTION + f.content.value)] else [])
         + (if f.version != [] then [Some(VERSION_OPTION + f.version)] else [])
  {
    hide Escape, Unescape, Spaced, Tokens;
    OptionNames();
    var b := VERSION_OPTION + Escape(f.version, keep);
    OptionPlain(VERSION_OPTION, f.version, keep);
    OptionUnescapes(VERSION_OPTION, f.version, keep);
    TwoTokens([], b);
    if f.content.Some? {
      var a := ID_OPTION + Escape(f.content.value, keep);
      OptionPlain(ID_OPTION, f.content.value, keep);
      OptionUnescapes(ID_OPTION, f.content.value, keep);
      TwoTokens([], a);
      TwoTokens(a, b);
    }
  }

  // ---- Fields of a URL -------------------------------------------------------------------------------------------

  datatype Field = Ns | Account | User | Version | Path | ContentId | Whole | Fullpath | Bucket

  /** The fields after oio_url_set, of a field other than the packed forms. */
  function Assigned(f: Fields, field: Field, v: Text): Fields {
    match field
    case Ns => f.(ns := Truncated(v, NS_LIMIT))
    case Account => f.(account := Truncated(v, ACCOUNT_LIMIT))
    case User => f.(user := Truncated(v, USER_LIMIT))
    case Version => f.(version := Truncated(v, VERSION_LIMIT))
    case Path => f.(path := Some(v))
    case ContentId => if IsHexa(v) then f.(content := Some(v)) else f
    case _ => f
  }

  /** The size of the buffer of a field, or a size that is enough where the text is duplicated. */
  function Limit(field: Field, v: Text): (limit: nat)
    ensures limit > 0
  {
    match field
    case Ns => 64
    case Account => 64
    case User => 1024
    case Version => 24
    case _ => |v| + 1
  }

  /** The fields after oio_url_unset. */
  function Cleared(f: Fields, field: Field): Fields {
    match field
    case Ns => f.(ns := [])
    case Account => f.(account := [])
    case User => f.(user := [])
    case Version => f.(version := [])
    case Path => f.(path := None)
    case ContentId => f.(content := None)
    case _ => f
  }

  /** A set where the text may be missing. */
  function AssignedTo(f: Fields, field: Field, v: Option<Text>): Fields {
    if v.None? then f else Assigned(f, field, v.value)
  }

  /** _unpack_fullpath: five pieces, or nothing changes */
  function Unpacked(f: Fields, s: Text): Option<Fields> {
    var ts := Split(s, |s| + 1);
    if |ts| != 5 then None
    else
      var a := AssignedTo(f, Account, Unescape(ts[0]));
      var b := AssignedTo(a, User, Unescape(ts[1]));
      var c := AssignedTo(b, Path, Unescape(ts[2]));
      var d := AssignedTo(c, Version, Unescape(ts[3]));
      Some(AssignedTo(d, ContentId, Unescape(ts[4])))
  }

  predicate ValidFields(f: Fields) { Fits(f) && (f.content.Some? ==> IsHexa(f.content.value)) }

  lemma {:induction false} JoinLength(ts: seq<Text>)
    ensures |ts| <= |Join(ts)| + 1
  {
    if |ts| > 1 { JoinLength(ts[1..]); }
  }

  /** A text that splits at its slashes into the escaped account, user, path, version and content. */
  predicate SpellsFullpath(s: Text, f: Fields) {
    var ts := Split(s, |s| + 1);
    && |ts| == 5 && Unescape(ts[0]) == Some(f.account) && Unescape(ts[1]) == Some(f.user)
    && Unescape(ts[2]) == f.path && Unescape(ts[3]) == Some(f.version) && Unescape(ts[4]) == f.content
  }

  /** The pieces of a full path. */
  lemma FullpathIsSplit(f: Fields, keep: Keep)
    requires PackFullpath(f, keep).Some?
    ensures SpellsFullpath(PackFullpath(f, keep).value, f)
  {
    hide Escape, Unescape, SplitMax, Join, Plain;
    var ts := [Escape(f.account, keep), Escape(f.user, keep), Escape(f.path.value, keep),
               Escape(f.version, keep), Escape(f.content.value, keep)];
    EscapeIsPlain(f.account, keep);
    EscapeIsPlain(f.user, keep);
    EscapeIsPlain(f.path.value, keep);
    EscapeIsPlain(f.version, keep);
    EscapeIsPlain(f.content.value, keep);
    EscapeRoundTrip(f.account, keep);
    EscapeRoundTrip(f.user, keep);
    EscapeRoundTrip(f.path.value, keep);
    EscapeRoundTrip(f.version, keep);
    EscapeRoundTrip(f.content.value, keep);
    JoinLength(ts);
    SplitJoin(ts, |Join(ts)| + 1);
  }

  /** A packed full path recovers its five fields, whatever the URL it is set on. */
  lemma FullpathRoundTrip(f: Fields, g: Fields, keep: Keep)
    requires ValidFields(f) && PackFullpath(f, keep).Some?
    ensures Unpacked(g, PackFullpath(f, keep).value) == Some(f.(ns := g.ns))
  {
    hide Escape, Unescape, Split, Join, IsHexa;
    FullpathIsSplit(f, keep);
  }

  /** A full path has five pieces, each of them an escaped field, and needs all five fields. */
  lemma FullpathIs(f: Fields, keep: Keep)
    ensures PackFullpath(f, keep).Some?
      <==> f.account != [] && f.user != [] && f.version != [] && f.path.Some? && f.content.Some?
    ensures PackFullpath(f, keep).Some? ==> SpellsFullpath(PackFullpath(f, keep).value, f)
  {
    hide Escape, Unescape, Join, Split;
    if f.account != [] && f.user != [] && f.version != [] && f.path.Some? && f.content.Some? {
      FullpathIsSplit(f, keep);
    }
  }

  // ---- The object --------------------------------------------------------------------------------------------------

  class Url {
    const keep: Keep
    var fields: Fields
    var bucket: Option<Text>
    var whole: Option<Text>
    var fullpath: Option<Text>

    /** The full path in the cache, if any, is that of the fields. */
    ghost predicate Valid()
      reads this
    {
      ValidFields(fields) && (fullpath.Some? ==> fullpath == PackFullpath(fields, keep))
    }

    /** The whole form in the cache, if any, is that of the fields. */
    ghost predicate WholeIsFresh()
      reads this
    {
      whole.Some? ==> whole == Some(PackWhole(fields, keep))
    }

    /** oio_url_empty */
    constructor (keep: Keep)
      ensures Valid() && WholeIsFresh() && this.keep == keep && fields == EMPTY
      ensures whole.None? && fullpath.None? && bucket.None?
    {
      this.keep := keep;
      fields, bucket, whole, fullpath := EMPTY, None, None, None;
    }

    /** oio_url_get, of a field other than the packed forms */
    function Get(field: Field): Option<Text>
      reads this
      requires field != Whole && field != Fullpath
    {
      match field
      case Ns => if fields.ns == [] then None else Some(fields.ns)
      case Account => if fields.account == [] then None else Some(fields.account)
      case User => if fields.user == [] then None else Some(fields.user)
      case Version => if fields.version == [] then None else Some(fields.version)
      case Path => fields.path
      case ContentId => fields.content
      case Bucket => bucket
    }

    /** A field other than the packed forms; the caches that it shows in are dropped. */
    method SetField(field: Field, v: Text) returns (ok: bool)
      requires Valid() && field != Whole && field != Fullpath
      modifies this
      ensures Valid() && whole.None? && fields == Assigned(old(fields), field, v)
      ensures ok == (field == ContentId ==> IsHexa(v))
      ensures bucket == if field == Bucket then Some(v) else old(bucket)
      ensures ok && v != [] ==> Get(field) == Some(if |v| < Limit(field, v) then v else v[..Limit(field, v) - 1])
      ensures forall other :: other != field && other != Whole && other != Fullpath ==> Get(other) == old(Get(other))
    {
      hide PackFullpath, IsHexa;
      whole := None;
      ok := true;
      match field {
        case Ns =>
          fields := fields.(ns := Truncated(v, NS_LIMIT));
          SamePath(old(fields), fields, keep);
        case Account => fields, fullpath := fields.(account := Truncated(v, ACCOUNT_LIMIT)), None;
        case User => fields, fullpath := fields.(user := Truncated(v, USER_LIMIT)), None;
        case Version => fields, fullpath := fields.(version := Truncated(v, VERSION_LIMIT)), None;
        case Path => fields, fullpath := fields.(path := Some(v)), None;
        case ContentId =>
          if !IsHexa(v) {
            return false;
          }
          fields, fullpath := fields.(content := Some(v)), None;
        case Bucket => bucket := Some(v);
      }
    }

    /** oio_url_set, of a packed full path */
    method SetFullpath(s: Text) returns (ok: bool)
      requires Valid()
      modifies this
      ensures Valid() && whole.None? && bucket == old(bucket)
      ensures var r := old(Unpacked(fields, s)); ok == r.Some? && fields == (if ok then r.value else old(fields))
    {
      hide PackFullpath, Unescape, Split, IsHexa;
      whole := None;
      var ts := Split(s, |s| + 1);
      if |ts| != 5 {
        return false;
      }
      ok := true;
      SetPiece(Account, ts[0]);
      SetPiece(User, ts[1]);
      SetPiece(Path, ts[2]);
      SetPiece(Version, ts[3]);
      SetPiece(ContentId, ts[4]);
    }

    /** A field, from its escaped form. */
    method SetPiece(field: Field, piece: Text)
      requires Valid() && whole.None? && field != Whole && field != Fullpath && field != Bucket
      modifies this
      ensures Valid() && whole.None? && bucket == old(bucket) && fields == AssignedTo(old(fields), field, Unescape(piece))
    {
      hide PackFullpath, Unescape;
      var v := Unescape(piece);
      if v.Some? {
        var ok := SetField(field, v.value);
      }
    }

    /** oio_url_unset: the whole form stays in the cache. */
    method Unset(field: Field)
      requires Valid()
      modifies this
      ensures Valid() && fields == Cleared(old(fields), field)
      ensures whole == if field == Whole then None else old(whole)
      ensures bucket == if field == Bucket then None else old(bucket)
      ensures field != Whole && field != Fullpath ==> Get(field).None?
      ensures forall other :: other != field && other != Whole && other != Fullpath ==> Get(other) == old(Get(other))
      ensures old(WholeIsFresh()) && old(whole.Some?) ==>
        (WholeIsFresh() <==> !Shows(old(fields), field))
    {
      hide PackFullpath, PackWhole;
      match field {
        case Ns =>
          fields := fields.(ns := []);
          SamePath(old(fields), fields, keep);
        case Account => fields, fullpath := fields.(account := []), None;
        case User => fields, fullpath := fields.(user := []), None;
        case Version => fields, fullpath := fields.(version := []), None;
        case Path => fields, fullpath := fields.(path := None), None;
        case ContentId => fields, fullpath := fields.(content := None), None;
        case Whole => whole := None;
        case Fullpath => fullpath := None;
        case Bucket => bucket := None;
      }
      ShownMatters(old(fields), field, keep);
    }

    /** oio_url_get, of the full path: there is one when the five fields are set, and it spells them. */
    method GetFullpath() returns (r: Option<Text>)
      requires Valid()
      modifies this`fullpath
      ensures Valid() && r == PackFullpath(fields, keep)
      ensures r.Some? <==> fields.account != [] && fields.user != [] && fields.version != []
                           && fields.path.Some? && fields.content.Some?
      ensures r.Some? ==> SpellsFullpath(r.value, fields)
    {
      hide PackFullpath, SpellsFullpath;
      FullpathIs(fields, keep);
      if fullpath.None? {
        fullpath := PackFullpath(fields, keep);
      }
      r := fullpath;
    }

    /** oio_url_get, of the whole form */
    method GetWhole() returns (r: Text)
      requires Valid()
      modifies this`whole
      ensures Valid() && whole == Some(r) && (old(whole.Some?) ==> whole == old(whole))
      ensures old(WholeIsFresh()) ==> WholeIsFresh() && r == PackWhole(fields, keep)
    {
      if whole.None? {
        var packed := Pack();
        whole := Some(packed);
      }
      r := whole.value;
    }

    /** _pack_url, piece by piece */
    method Pack() returns (gs: Text)
      ensures gs == PackWhole(fields, keep)
    {
      hide Escape, Options, Join, PackWhole;
      WholeForms(fields, keep);
      gs := [];
      if fields.ns != [] {
        gs := gs + Escape(fields.ns, keep);
        if fields.account != [] {
          gs := gs + [SLASH] + Escape(fields.account, keep);
          if fields.user != [] {
            gs := gs + ([SLASH] + Escape(fields.user, keep) + [SLASH]);
            if fields.path.Some? {
              gs := gs + (Escape(fields.version, keep) + [SLASH] + Escape(fields.path.value, keep));
            }
            var options := PackOptions();
            gs := gs + options;
          }
        }
      }
    }

    method PackOptions() returns (gs: Text)
      ensures gs == Options(fields, keep)
    {
      hide Escape;
      gs := [];
      if fields.content.Some? {
        gs := gs + ([QUERY] + ID_OPTION + Escape(fields.content.value, keep));
      }
      if fields.version != [] {
        gs := gs + ([if fields.content.Some? then AMPERSAND else QUERY] + VERSION_OPTION + Escape(fields.version, keep));
      }
    }
  }

  /** The whole form, spelled out. */
  lemma WholeForms(f: Fields, keep: Keep)
    ensures f.ns == [] ==> PackWhole(f, keep) == []
    ensures f.ns != [] && f.account == [] ==> PackWhole(f, keep) == Escape(f.ns, keep)
    ensures f.ns != [] && f.account != [] && f.user == [] ==>
      PackWhole(f, keep) == Escape(f.ns, keep) + [SLASH] + Escape(f.account, keep)
    ensures HasContainer(f) ==>
      PackWhole(f, keep) == Escape(f.ns, keep) + [SLASH] + Escape(f.account, keep)
        + ([SLASH] + Escape(f.user, keep) + [SLASH])
        + (if f.path.None? then [] else Escape(f.version, keep) + [SLASH] + Escape(f.path.value, keep)) + Options(f, keep)
  {
    hide Escape, Options;
    if HasContainer(f) {
      Joined(f, keep);
    } else if f.ns != [] && f.account != [] {
      var ts := [Escape(f.ns, keep), Escape(f.account, keep)];
      assert Join(ts) == ts[0] + [SLASH] + Join(ts[1..]);
      assert ts[1..] == [ts[1]];
    }
  }

  lemma SamePath(f: Fields, g: Fields, keep: Keep)
    requires g == f.(ns := g.ns)
    ensures PackFullpath(f, keep) == PackFullpath(g, keep)
  {
  }

  lemma Joined(f: Fields, keep: Keep)
    requires HasContainer(f)
    ensures
      var container := Escape(f.ns, keep) + [SLASH] + Escape(f.account, keep) + ([SLASH] + Escape(f.user, keep) + [SLASH]);
      Join(Pieces(f, keep)) == container
        + (if f.path.None? then [] else Escape(f.version, keep) + [SLASH] + Escape(f.path.value, keep))
  {
    hide Escape;
    var ts := Pieces(f, keep);
    assert Join(ts) == ts[0] + [SLASH] + Join(ts[1..]);
    assert Join(ts[1..]) == ts[1] + [SLASH] + Join(ts[1..][1..]);
    assert ts[1..][1..] == ts[2..];
    assert Join(ts[2..]) == ts[2] + [SLASH] + Join(ts[2..][1..]);
    assert ts[2..][1..] == ts[3..];
    if f.path.Some? {
      assert ts[3..] == [ts[3], ts[4]];
      assert Join(ts[3..]) == ts[3] + [SLASH] + Join(ts[3..][1..]);
      assert ts[3..][1..] == [ts[4]];
    } else {
      assert ts[3..] == [[]];
    }
  }

  // ---- When the whole form is stale -----------------------------------------------------------------------------------

  /** A field that the whole form shows. */
  predicate Shows(f: Fields, field: Field) {
    match field
    case Ns => f.ns != []
    case Account => f.ns != [] && f.account != []
    case User => HasContainer(f)
    case Version => HasContainer(f) && f.version != []
    case Path => HasContainer(f) && f.path.Some?
    case ContentId => HasContainer(f) && f.content.Some?
    case Whole => false
    case _ => false
  }

  function PathLength(f: Fields, keep: Keep): nat {
    if f.path.None? then 0 else |Escape(f.version, keep)| + 1 + |Escape(f.path.value, keep)|
  }

  function OptionsLength(f: Fields, keep: Keep): nat {
    (if f.content.Some? then 4 + |Escape(f.content.value, keep)| else 0)
    + (if f.version == [] then 0 else 3 + |Escape(f.version, keep)|)
  }

  lemma WholeLength(f: Fields, keep: Keep)
    ensures |PackWhole(f, keep)| ==
      if f.ns == [] then 0 else if f.account == [] then |Escape(f.ns, keep)|
      else if f.user == [] then |Escape(f.ns, keep)| + 1 + |Escape(f.account, keep)|
      else
        |Escape(f.ns, keep)| + 1 + |Escape(f.account, keep)| + 2 + |Escape(f.user, keep)|
        + PathLength(f, keep) + OptionsLength(f, keep)
  {
    hide Escape, PackWhole;
    WholeForms(f, keep);
  }

  /** A field that is not shown does not matter. */
  lemma HiddenIsSame(f: Fields, field: Field, keep: Keep)
    requires !Shows(f, field)
    ensures PackWhole(Cleared(f, field), keep) == PackWhole(f, keep)
  {
    hide Escape, PackWhole;
    WholeForms(f, keep);
    WholeForms(Cleared(f, field), keep);
  }

  /** Clearing a field changes the whole form exactly when it shows it. */
  lemma ShownMatters(f: Fields, field: Field, keep: Keep)
    ensures PackWhole(Cleared(f, field), keep) == PackWhole(f, keep) <==> !Shows(f, field)
  {
    hide Escape, PackWhole;
    if Shows(f, field) {
      EscapeIsPlain(f.ns, keep);
      EscapeIsPlain(f.version, keep);
      EscapeIsPlain([], keep);
      WholeLength(f, keep);
      WholeLength(Cleared(f, field), keep);
    } else {
      HiddenIsSame(f, field, keep);
    }
  }
}
