/**
 The two connection-string formats the ORM produces, and parsers that say
 how they are read.

 - PostgreSQL keyword/value strings, following the rules libpq documents
   (section 34.1.1.1 of the PostgreSQL manual, "Keyword/Value Connection
   Strings"); the Go driver's own parser is not part of this model, and
   agrees with these rules on the strings built here: `keyword = value` pairs
   separated by whitespace; spaces around `=` are optional; a value that is
   empty or holds whitespace must be written in single quotes, and inside a
   value a backslash escapes the next character.
 - MySQL data source names as go-sql-driver 1.8 reads them:
   `[user[:password]@][net[(addr)]]/dbname[?params]`, where the database
   name follows the LAST `/`, the user information precedes the LAST `@`
   before it, and the password follows the FIRST `:` of the user information;
   the database name is then percent-decoded (`url.PathUnescape`), and a TCP
   address that `net.SplitHostPort` rejects is given the port 3306.
 */
module Dsn {
  import opened Errors
  import opened Text

  /** A keyword and its value. */
  type Setting = (string, string)

  // ---------------------------------------------------------------------
  // PostgreSQL keyword/value parsing

  function SkipSpaces(s: string): (t: string)
    ensures |t| <= |s|
    ensures |t| > 0 ==> !IsSpace(t[0])
    ensures |s| == 0 || !IsSpace(s[0]) ==> t == s
  {
    if |s| > 0 && IsSpace(s[0]) then SkipSpaces(s[1..]) else s
  }

  /** The length of the keyword at the start of `s`: it runs up to the first
      whitespace or `=`. */
  function KeywordEnd(s: string): (n: nat)
    ensures n <= |s|
    ensures forall i :: 0 <= i < n ==> !IsSpace(s[i]) && s[i] != '='
    ensures n < |s| ==> IsSpace(s[n]) || s[n] == '='
  {
    if |s| == 0 || IsSpace(s[0]) || s[0] == '=' then 0 else 1 + KeywordEnd(s[1..])
  }

  /** An unquoted value runs up to the first whitespace, which is consumed;
      a backslash takes the next character literally (a trailing one is
      dropped). Returns the value and what follows it. */
  function ReadBare(s: string): (r: (string, string))
    ensures |r.1| <= |s|
  {
    if |s| == 0 then ("", "")
    else if IsSpace(s[0]) then ("", s[1..])
    else if s[0] == '\\' then
      if |s| == 1 then ("", "")
      else var (v, rest) := ReadBare(s[2..]); ([s[1]] + v, rest)
    else var (v, rest) := ReadBare(s[1..]); ([s[0]] + v, rest)
  }

  /** A quoted value, after its opening quote, runs up to the next unescaped
      quote, which is consumed; an unterminated value is an error. */
  function ReadQuoted(s: string): (r: Option<(string, string)>)
    ensures r.Some? ==> |r.value.1| < |s|
  {
    if |s| == 0 then None
    else if s[0] == '\\' then
      if |s| == 1 then None
      else match ReadQuoted(s[2..])
        case None => None
        case Some((v, rest)) => Some(([s[1]] + v, rest))
    else if s[0] == '\'' then Some(("", s[1..]))
    else match ReadQuoted(s[1..])
      case None => None
      case Some((v, rest)) => Some(([s[0]] + v, rest))
  }

  function Prepend(p: Setting, r: Option<seq<Setting>>): Option<seq<Setting>>
  {
    match r
    case None => None
    case Some(ps) => Some([p] + ps)
  }

  /** The value after `=` and its leading blanks: quoted when it starts
      with a quote. */
  function ReadValue(v: string): (r: Option<(string, string)>)
    ensures r.Some? ==> |r.value.1| <= |v|
  {
    if |v| > 0 && v[0] == '\'' then ReadQuoted(v[1..]) else Some(ReadBare(v))
  }

  /** One `keyword = value` setting at the start of `t`, and what follows
      it; `None` for a missing keyword or `=`, or an unterminated quote. */
  function ParseSetting(t: string): (r: Option<(Setting, string)>)
    ensures r.Some? ==> |r.value.1| < |t|
  {
    var n := KeywordEnd(t);
    var afterKey := SkipSpaces(t[n..]);
    if n == 0 || |afterKey| == 0 || afterKey[0] != '=' then None
    else
      match ReadValue(SkipSpaces(afterKey[1..]))
      case None => None
      case Some(v) => Some(((t[..n], v.0), v.1))
  }

  /** The settings a keyword/value connection string holds, in order, or
      `None` when it is malformed. */
  function ParseConninfo(s: string): Option<seq<Setting>>
    decreases |s|
  {
    var t := SkipSpaces(s);
    if |t| == 0 then Some([])
    else
      match ParseSetting(t)
      case None => None
      case Some(x) => Prepend(x.0, ParseConninfo(x.1))
  }

  // ---------------------------------------------------------------------
  // Rendering keyword/value strings

  /** A keyword that needs no quoting: non-empty, without whitespace, `=`,
      quotes or backslashes. */
  predicate PlainKeyword(k: string)
  {
    |k| > 0 && forall i :: 0 <= i < |k| ==> !IsSpace(k[i]) && k[i] != '=' && k[i] != '\'' && k[i] != '\\'
  }

  /** Text without whitespace or backslashes: read back unchanged when
      written unquoted, if it does not start with a quote. */
  predicate Unbroken(v: string)
  {
    forall i :: 0 <= i < |v| ==> !IsSpace(v[i]) && v[i] != '\\'
  }

  /** A value that survives being written unquoted. */
  predicate PlainValue(v: string)
  {
    |v| > 0 && v[0] != '\'' && Unbroken(v)
  }

  predicate PlainKeywords(ps: seq<Setting>)
  {
    forall i :: 0 <= i < |ps| ==> PlainKeyword(ps[i].0)
  }

  /** `keyword=value` with the value written as it is. */
  function BarePair(p: Setting): string
  {
    p.0 + "=" + p.1
  }

  /** Settings written unquoted, separated by single spaces. */
  function JoinBare(ps: seq<Setting>): string
  {
    if |ps| == 0 then ""
    else if |ps| == 1 then BarePair(ps[0])
    else BarePair(ps[0]) + " " + JoinBare(ps[1..])
  }

  /** Backslash before every quote and backslash. */
  function Escape(v: string): (e: string)
    ensures |e| >= |v|
  {
    if |v| == 0 then ""
    else (if v[0] == '\'' || v[0] == '\\' then ['\\', v[0]] else [v[0]]) + Escape(v[1..])
  }

  /** `keyword='value'` with the value escaped. */
  function QuotedPair(p: Setting): string
  {
    p.0 + "='" + Escape(p.1) + "'"
  }

  /** Settings written quoted, separated by single spaces. */
  function JoinQuoted(ps: seq<Setting>): string
  {
    if |ps| == 0 then ""
    else if |ps| == 1 then QuotedPair(ps[0])
    else QuotedPair(ps[0]) + " " + JoinQuoted(ps[1..])
  }

  // ---------------------------------------------------------------------
  // Reading rendered strings back

  lemma KeywordEndAt(k: string, s: string)
    requires PlainKeyword(k)
    requires |s| > 0 && s[0] == '='
    ensures KeywordEnd(k + s) == |k|
    decreases |k|
  {
    if |k| > 1 {
      assert (k + s)[1..] == k[1..] + s;
      KeywordEndAt(k[1..], s);
    } else {
      assert (k + s)[1..] == s;
    }
  }

  lemma {:induction false} ReadBareUnbroken(v: string, tail: string)
    requires Unbroken(v)
    ensures ReadBare(v) == (v, "")
    ensures ReadBare(v + " " + tail) == (v, tail)
    decreases |v|
  {
    if |v| > 0 {
      assert (v + " " + tail)[1..] == v[1..] + " " + tail;
      ReadBareUnbroken(v[1..], tail);
      assert [v[0]] + v[1..] == v;
    } else {
      assert v + " " + tail == " " + tail;
    }
  }

  lemma {:induction false} ReadQuotedEscaped(v: string, tail: string)
    ensures ReadQuoted(Escape(v) + "'" + tail) == Some((v, tail))
    decreases |v|
  {
    var s := Escape(v) + "'" + tail;
    if |v| == 0 {
      assert s == "'" + tail;
    } else {
      ReadQuotedEscaped(v[1..], tail);
      if v[0] == '\'' || v[0] == '\\' {
        assert s == ['\\', v[0]] + (Escape(v[1..]) + "'" + tail);
        assert s[2..] == Escape(v[1..]) + "'" + tail;
      } else {
        assert s == [v[0]] + (Escape(v[1..]) + "'" + tail);
        assert s[1..] == Escape(v[1..]) + "'" + tail;
      }
      assert [v[0]] + v[1..] == v;
    }
  }

  /** How the parser treats `keyword=` followed by `rest`: it skips blanks,
      then reads one value. */
  lemma ParseSettingAt(k: string, rest: string)
    requires PlainKeyword(k)
    ensures ParseSetting(k + "=" + rest) ==
            match ReadValue(SkipSpaces(rest))
            case None => None
            case Some(v) => Some(((k, v.0), v.1))
  {
    var eq := "=" + rest;
    var s := k + eq;
    assert s == k + "=" + rest;
    KeywordEndAt(k, eq);
    assert s[..|k|] == k;
    assert s[|k|..] == eq;
    assert eq[0] == '=' && !IsSpace(eq[0]);
    assert SkipSpaces(eq) == eq;
    assert eq[1..] == rest;
  }

  lemma ParseAfterKeyword(k: string, rest: string)
    requires PlainKeyword(k)
    ensures ParseConninfo(k + "=" + rest) ==
            match ReadValue(SkipSpaces(rest))
            case None => None
            case Some(v) => Prepend((k, v.0), ParseConninfo(v.1))
  {
    var s := k + "=" + rest;
    assert s[0] == k[0];
    assert SkipSpaces(s) == s;
    ParseSettingAt(k, rest);
  }

  lemma ParseEmpty()
    ensures ParseConninfo("") == Some([])
  {
  }

  lemma PrependOne(p: Setting)
    ensures Prepend(p, Some([])) == Some([p])
  {
    var none: seq<Setting> := [];
    assert [p] + none == [p];
  }

  /** A plain value, alone or followed by a blank, is read back as itself. */
  lemma ReadPlainValue(v: string, tail: string)
    requires PlainValue(v)
    ensures ReadValue(SkipSpaces(v)) == Some((v, ""))
    ensures ReadValue(SkipSpaces(v + " " + tail)) == Some((v, tail))
  {
    ReadBareUnbroken(v, tail);
    assert (v + " " + tail)[0] == v[0];
  }

  /** A plain setting written unquoted reads back as itself, whatever follows. */
  lemma ParseBareHead(p: Setting, tail: string)
    requires PlainKeyword(p.0) && PlainValue(p.1)
    ensures ParseConninfo(BarePair(p)) == Some([p])
    ensures ParseConninfo(BarePair(p) + " " + tail) == Prepend(p, ParseConninfo(tail))
  {
    ReadPlainValue(p.1, tail);
    ParseAfterKeyword(p.0, p.1);
    ParseEmpty();
    PrependOne(p);
    assert BarePair(p) + " " + tail == p.0 + "=" + (p.1 + " " + tail);
    ParseAfterKeyword(p.0, p.1 + " " + tail);
  }

  /** Settings whose values are all plain, written unquoted, read back
      exactly: the unquoted format is faithful for them. */
  lemma {:induction false} BareRoundTrip(ps: seq<Setting>)
    requires PlainKeywords(ps)
    requires forall i :: 0 <= i < |ps| ==> PlainValue(ps[i].1)
    ensures ParseConninfo(JoinBare(ps)) == Some(ps)
    decreases |ps|
  {
    if |ps| == 0 {
      ParseEmpty();
    } else if |ps| == 1 {
      ParseBareHead(ps[0], "");
      assert [ps[0]] == ps;
    } else {
      BareRoundTrip(ps[1..]);
      ParseBareHead(ps[0], JoinBare(ps[1..]));
      assert [ps[0]] + ps[1..] == ps;
    }
  }

  /** An EMPTY value written unquoted swallows the next setting: the
      parser skips the blank after `=` and takes `keyword2=value2` as the
      first keyword's value, so the second keyword is lost. */
  lemma EmptyBareValueSwallowsNext(k1: string, p: Setting, rest: seq<Setting>)
    requires PlainKeyword(k1) && PlainKeyword(p.0) && Unbroken(p.1)
    requires PlainKeywords(rest)
    requires forall i :: 0 <= i < |rest| ==> PlainValue(rest[i].1)
    ensures ParseConninfo(JoinBare([(k1, ""), p] + rest)) ==
            Some([(k1, p.0 + "=" + p.1)] + rest)
  {
    var w := p.0 + "=" + p.1;
    var tail := JoinBare([p] + rest);
    assert [(k1, ""), p] + rest == [(k1, "")] + ([p] + rest);
    JoinBareEmptyHead(k1, [p] + rest);
    assert JoinBare([(k1, ""), p] + rest) == k1 + "=" + (" " + tail);
    JoinBareCons(p, rest);
    Unbroken3(p.0, "=", p.1);
    assert PlainValue(w);
    ReadsOneValue(k1, w, JoinBare(rest));
    BareRoundTrip(rest);
    if |rest| == 0 {
      assert tail == w;
      ParseEmpty();
      PrependOne((k1, w));
      assert [(k1, w)] + rest == [(k1, w)];
    } else {
      assert tail == w + " " + JoinBare(rest);
    }
  }

  /** The empty-value defect one setting further on: a plain first setting
      is read as written, and the empty second one swallows the third. */
  lemma EmptyValueAfterHead(p0: Setting, k1: string, p: Setting, rest: seq<Setting>)
    requires PlainKeyword(p0.0) && PlainValue(p0.1)
    requires PlainKeyword(k1) && PlainKeyword(p.0) && Unbroken(p.1)
    requires PlainKeywords(rest)
    requires forall i :: 0 <= i < |rest| ==> PlainValue(rest[i].1)
    ensures ParseConninfo(JoinBare([p0] + ([(k1, ""), p] + rest))) ==
            Some([p0] + ([(k1, p.0 + "=" + p.1)] + rest))
  {
    var tail := [(k1, ""), p] + rest;
    JoinBareCons(p0, tail);
    ParseBareHead(p0, JoinBare(tail));
    EmptyBareValueSwallowsNext(k1, p, rest);
  }

  /** `k=` followed by a blank and a plain value `w`, then either nothing
      or a blank and `after`: the parser gives `k` the value `w`. */
  lemma ReadsOneValue(k: string, w: string, after: string)
    requires PlainKeyword(k) && PlainValue(w)
    ensures ParseConninfo(k + "=" + (" " + w)) == Prepend((k, w), ParseConninfo(""))
    ensures ParseConninfo(k + "=" + (" " + (w + " " + after))) == Prepend((k, w), ParseConninfo(after))
  {
    ReadPlainValue(w, after);
    SkipOneSpace(w);
    ParseAfterKeyword(k, " " + w);
    assert (w + " " + after)[0] == w[0];
    SkipOneSpace(w + " " + after);
    ParseAfterKeyword(k, " " + (w + " " + after));
  }

  lemma JoinBareEmptyHead(k: string, ps: seq<Setting>)
    requires |ps| > 0
    ensures JoinBare([(k, "")] + ps) == k + "=" + (" " + JoinBare(ps))
  {
    EmptyPair(k);
    JoinBareCons((k, ""), ps);
    Assoc3(k + "=", " ", JoinBare(ps));
  }

  lemma JoinBareCons(p: Setting, ps: seq<Setting>)
    ensures JoinBare([p] + ps) == if |ps| == 0 then BarePair(p) else BarePair(p) + " " + JoinBare(ps)
  {
    assert ([p] + ps)[0] == p;
    assert ([p] + ps)[1..] == ps;
  }

  /** One more setting at the end adds a space and its pair. */
  lemma JoinSnocPair(ps: seq<Setting>, k: string, v: string)
    requires |ps| > 0
    ensures JoinBare(ps + [(k, v)]) == JoinBare(ps) + " " + k + "=" + v
  {
    JoinBareSnoc(ps, (k, v));
    assert BarePair((k, v)) == k + "=" + v;
    Assoc3(JoinBare(ps) + " ", k + "=", v);
    Assoc3(JoinBare(ps) + " ", k, "=");
  }

  lemma {:induction false} JoinBareSnoc(ps: seq<Setting>, p: Setting)
    requires |ps| > 0
    ensures JoinBare(ps + [p]) == JoinBare(ps) + " " + BarePair(p)
    decreases |ps|
  {
    if |ps| > 1 {
      JoinBareSnoc(ps[1..], p);
      assert (ps + [p])[1..] == ps[1..] + [p];
    }
  }

  lemma SkipOneSpace(s: string)
    requires |s| > 0 && !IsSpace(s[0])
    ensures SkipSpaces(" " + s) == s
  {
    assert (" " + s)[1..] == s;
  }

  lemma Unbroken3(a: string, b: string, c: string)
    requires Unbroken(a) && Unbroken(b) && Unbroken(c)
    ensures Unbroken(a + b + c)
  {
    var s := a + b + c;
    forall i | 0 <= i < |s|
      ensures !IsSpace(s[i]) && s[i] != '\\'
    {
      if i < |a| { assert s[i] == a[i]; }
      else if i < |a| + |b| { assert s[i] == b[i - |a|]; }
      else { assert s[i] == c[i - |a| - |b|]; }
    }
  }

  /** A setting written quoted reads back as itself, whatever its value. */
  lemma ParseQuotedHead(p: Setting, tail: string)
    requires PlainKeyword(p.0)
    ensures ParseConninfo(QuotedPair(p) + tail) == Prepend(p, ParseConninfo(tail))
  {
    var rest := "'" + Escape(p.1) + "'" + tail;
    assert QuotedPair(p) + tail == p.0 + "=" + rest;
    ParseAfterKeyword(p.0, rest);
    assert rest[0] == '\'' && SkipSpaces(rest) == rest;
    assert rest[1..] == Escape(p.1) + "'" + tail;
    ReadQuotedEscaped(p.1, tail);
  }

  /** Quoted settings read back exactly, for every value: empty ones, ones
      with whitespace, quotes or backslashes included. */
  lemma {:induction false} QuotedRoundTrip(ps: seq<Setting>)
    requires PlainKeywords(ps)
    ensures ParseConninfo(JoinQuoted(ps)) == Some(ps)
    decreases |ps|
  {
    if |ps| == 0 {
      ParseEmpty();
    } else if |ps| == 1 {
      ParseQuotedHead(ps[0], "");
      assert QuotedPair(ps[0]) + "" == QuotedPair(ps[0]);
      ParseEmpty();
      PrependOne(ps[0]);
      assert [ps[0]] == ps;
    } else {
      QuotedRoundTrip(ps[1..]);
      var tail := JoinQuoted(ps[1..]);
      ParseQuotedHead(ps[0], " " + tail);
      assert JoinQuoted(ps) == QuotedPair(ps[0]) + (" " + tail);
      ParseConninfoSkipsLeadingSpace(tail);
      assert [ps[0]] + ps[1..] == ps;
    }
  }

  lemma ParseConninfoSkipsLeadingSpace(s: string)
    ensures ParseConninfo(" " + s) == ParseConninfo(s)
  {
    assert (" " + s)[1..] == s;
    SkipSpacesIdempotent(s);
  }

  lemma SkipSpacesIdempotent(s: string)
    ensures SkipSpaces(SkipSpaces(s)) == SkipSpaces(s)
  {
  }

  // ---------------------------------------------------------------------
  // MySQL data source names

  datatype MySqlConfig = MySqlConfig(user: string, passwd: string, net: string, addr: string, dbname: string, params: string)

  /** The user information before the last `@`, split at its first `:`;
      without an `@` there is none. Returns user, password and the rest. */
  function SplitUserInfo(left: string): (string, string, string)
  {
    match LastIndex(left, '@')
    case None => ("", "", left)
    case Some(j) =>
      var info := left[..j];
      match FirstIndex(info, ':')
      case None => (info, "", left[j + 1..])
      case Some(k) => (info[..k], info[k + 1..], left[j + 1..])
  }

  /** `net(addr)`: the protocol before the first `(`; an address must then
      end with `)`. */
  function SplitNetAddr(s: string): Option<(string, string)>
  {
    match FirstIndex(s, '(')
    case None => Some((s, ""))
    case Some(k) =>
      if s[|s| - 1] != ')' then None
      else Some((s[..k], s[k + 1..|s| - 1]))
  }

  /** The database name up to the first `?`, and the parameters after it. */
  function SplitDbName(right: string): (string, string)
  {
    match FirstIndex(right, '?')
    case None => (right, "")
    case Some(q) => (right[..q], right[q + 1..])
  }

  /** The splitting step of the driver's `parseDSN`, or `None` when the
      name has no `/` or an address without its closing `)`. */
  function SplitMySql(dsn: string): Option<MySqlConfig>
  {
    match LastIndex(dsn, '/')
    case None => None
    case Some(i) =>
      var (user, passwd, netAddr) := SplitUserInfo(dsn[..i]);
      var (dbname, params) := SplitDbName(dsn[i + 1..]);
      match SplitNetAddr(netAddr)
      case None => None
      case Some((net, addr)) => Some(MySqlConfig(user, passwd, net, addr, dbname, params))
  }

  /** The driver's reading of a data source name, as go-sql-driver 1.8 does
      it: the splitting, then `url.PathUnescape` of the database name, then
      `normalize`, which fills in a missing protocol and address and gives a
      TCP address the driver cannot split into host and port the port 3306.
      `None` when any of these fails. */
  function ParseMySql(dsn: string): Option<MySqlConfig>
  {
    match SplitMySql(dsn)
    case None => None
    case Some(c) =>
      match PathUnescape(c.dbname)
      case None => None
      case Some(name) =>
        match Normalize(c.net, c.addr)
        case None => None
        case Some((net, addr)) => Some(MySqlConfig(c.user, c.passwd, net, addr, name, c.params))
  }

  predicate IsHex(ch: char)
  {
    '0' <= ch <= '9' || 'a' <= ch <= 'f' || 'A' <= ch <= 'F'
  }

  function HexValue(ch: char): (v: nat)
    requires IsHex(ch)
    ensures v < 16
  {
    if '0' <= ch <= '9' then ch as nat - '0' as nat
    else if 'a' <= ch <= 'f' then ch as nat - 'a' as nat + 10
    else ch as nat - 'A' as nat + 10
  }

  /** `url.PathUnescape`: every `%` and the two hexadecimal digits after it
      stand for one byte; a `%` without two hexadecimal digits after it is
      an error. Nothing else changes, `+` included. */
  function PathUnescape(s: string): (r: Option<string>)
    ensures r.Some? ==> |r.value| <= |s|
    ensures r.Some? && '%' in s ==> |r.value| < |s|
    decreases |s|
  {
    if |s| == 0 then Some("")
    else if s[0] == '%' then
      if |s| < 3 || !IsHex(s[1]) || !IsHex(s[2]) then None
      else
        match PathUnescape(s[3..])
        case None => None
        case Some(t) => Some([(16 * HexValue(s[1]) + HexValue(s[2])) as char] + t)
    else
      match PathUnescape(s[1..])
      case None => None
      case Some(t) =>
        assert '%' in s ==> '%' in s[1..];
        Some([s[0]] + t)
  }

  /** A name without `%` is unescaped to itself; one with a `%` never is. */
  lemma {:induction false} PathUnescapePlain(s: string)
    ensures PathUnescape(s) == Some(s) <==> '%' !in s
    decreases |s|
  {
    if |s| > 0 && s[0] != '%' {
      PathUnescapePlain(s[1..]);
      assert s == [s[0]] + s[1..];
      assert '%' in s <==> '%' in s[1..];
    }
  }

  /** `net.SplitHostPort`: the port follows the last `:`; a host may be
      bracketed, and then the `]` must stand just before that `:`; an
      unbracketed host holding a `:`, and a stray bracket, are errors. */
  function SplitHostPort(hostport: string): (r: Option<(string, string)>)
    ensures r.Some? ==> ':' in hostport
  {
    match LastIndex(hostport, ':')
    case None => None
    case Some(i) =>
      if hostport[0] == '[' then
        match FirstIndex(hostport, ']')
        case None => None
        case Some(end) =>
          if end + 1 != i || '[' in hostport[1..] || ']' in hostport[end + 1..] then None
          else Some((hostport[1..end], hostport[i + 1..]))
      else
        var host := hostport[..i];
        if ':' in host || '[' in hostport || ']' in hostport then None
        else Some((host, hostport[i + 1..]))
  }

  /** `net.JoinHostPort`: a host holding a `:` is taken for an IPv6
      address and bracketed. */
  function JoinHostPort(host: string, port: string): string
  {
    if ':' in host then "[" + host + "]:" + port else host + ":" + port
  }

  /** The driver's `normalize` for the protocol and address: the protocol
      defaults to `tcp`; an empty address defaults by protocol; a TCP
      address that does not split into host and port gets the port 3306. */
  function Normalize(net: string, addr: string): (r: Option<(string, string)>)
    ensures r.Some? ==> r.value.0 != "" && r.value.1 != ""
    ensures r.Some? && addr != "" && r.value.0 != "tcp" ==> r.value == (net, addr)
  {
    var net' := if net == "" then "tcp" else net;
    if addr == "" then
      if net' == "tcp" then Some((net', "127.0.0.1:3306"))
      else if net' == "unix" then Some((net', "/tmp/mysql.sock"))
      else None
    else if net' == "tcp" then
      if SplitHostPort(addr).Some? then Some((net', addr)) else Some((net', JoinHostPort(addr, "3306")))
    else Some((net', addr))
  }

  /** A host or port the driver's address check leaves alone: no `:` and
      no bracket. */
  predicate PlainHostPart(s: string)
  {
    ':' !in s && '[' !in s && ']' !in s
  }

  /** `host:port` splits back into its parts when neither holds a `:` or a
      bracket, so `normalize` keeps such a TCP address. */
  lemma SplitHostPortAt(host: string, port: string)
    requires PlainHostPart(host) && PlainHostPart(port)
    ensures SplitHostPort(host + ":" + port) == Some((host, port))
    ensures Normalize("tcp", host + ":" + port) == Some(("tcp", host + ":" + port))
  {
    var hp := host + ":" + port;
    assert hp == host + [':'] + port;
    LastIndexAt(host, ':', port);
    assert hp[0] != '[' by {
      if |host| > 0 { assert hp[0] == host[0]; } else { assert hp[0] == ':'; }
    }
    assert hp[..|host|] == host;
    assert hp[|host| + 1..] == port;
    assert '[' !in hp && ']' !in hp by {
      forall k | 0 <= k < |hp|
        ensures hp[k] != '[' && hp[k] != ']'
      {
        if k < |host| { assert hp[k] == host[k]; }
        else if k > |host| { assert hp[k] == port[k - |host| - 1]; }
      }
    }
  }

  /** An unbracketed host holding a `:` (an IPv6 address, say) does not
      split off its port, so `normalize` brackets the whole address and
      appends the port 3306. */
  lemma ColonHostRebracketed(host: string, port: string)
    requires ':' in host && '[' !in host && ':' !in port
    ensures Normalize("tcp", host + ":" + port) == Some(("tcp", "[" + host + ":" + port + "]:3306"))
  {
    var hp := host + ":" + port;
    assert hp == host + [':'] + port;
    LastIndexAt(host, ':', port);
    assert hp[0] == host[0];
    assert hp[..|host|] == host;
    assert SplitHostPort(hp).None?;
    assert ':' in hp;
    assert JoinHostPort(hp, "3306") == "[" + hp + "]:" + "3306";
    assert "[" + hp + "]:" + "3306" == "[" + host + ":" + port + "]:3306";
  }

  lemma SplitDbNameAt(name: string, params: string)
    requires '?' !in name
    ensures SplitDbName(name + "?" + params) == (name, params)
  {
    var s := name + "?" + params;
    assert s == name + ['?'] + params;
    FirstIndexAt(name, '?', params);
    assert s[..|name|] == name;
    assert s[|name| + 1..] == params;
  }

  lemma SplitNetAddrTcp(addr: string)
    ensures SplitNetAddr("tcp(" + addr + ")") == Some(("tcp", addr))
  {
    var s := "tcp(" + addr + ")";
    assert s == "tcp" + ['('] + (addr + ")");
    FirstIndexAt("tcp", '(', addr + ")");
    assert s[|s| - 1] == ')';
    assert s[..3] == "tcp";
    assert s[4..|s| - 1] == addr;
  }

  lemma SplitUserInfoAt(user: string, password: string, rest: string)
    requires ':' !in user && '@' !in rest
    ensures SplitUserInfo(user + ":" + password + "@" + rest) == (user, password, rest)
  {
    var info := user + ":" + password;
    var s := info + "@" + rest;
    assert s == info + ['@'] + rest;
    LastIndexAt(info, '@', rest);
    assert s[..|info|] == info;
    assert s[|info| + 1..] == rest;
    assert info == user + [':'] + password;
    FirstIndexAt(user, ':', password);
    assert info[..|user|] == user;
    assert info[|user| + 1..] == password;
  }

  // ---------------------------------------------------------------------
  // Solver hints: single identities on sequences and strings, each with an
  // empty proof, that the proofs above instantiate at the terms they need.

  lemma SplitAfterThird<T>(xs: seq<T>)
    requires |xs| >= 3
    ensures xs == [xs[0]] + ([xs[1], xs[2]] + xs[3..])
  {
  }

  lemma ConsTwo<T>(a: T, b: T, xs: seq<T>)
    requires |xs| == 3
    ensures [a] + ([b] + xs) == [a, b, xs[0], xs[1], xs[2]]
  {
  }

  lemma EmptyPair(k: string)
    ensures BarePair((k, "")) == k + "="
  {
  }

  lemma Assoc3(a: string, b: string, c: string)
    ensures a + b + c == a + (b + c)
  {
  }
}
