/** Percent-encoding per sections 2.1 and 2.3 of RFC 3986: the client's uri_encode, which fills a
    fixed buffer, and the Rust UriBuilder, whose URIs SQLite splits and decodes again. */
module PercentEncoding {
  import opened Options
  import opened Bytes

  predicate Unreserved(c: char) {
    'A' <= c <= 'Z' || 'a' <= c <= 'z' || '0' <= c <= '9' || c == '-' || c == '.' || c == '_' || c == '~'
  }

  /** uri_encode also passes '/' through, percent_encode does not. */
  predicate Passes(c: char, slash: bool) { Unreserved(c) || (slash && c == '/') }

  function Hex(n: nat): char
    requires n < 16
  {
    if n < 10 then '0' + n as char else 'A' + (n - 10) as char
  }

  function UnHex(c: char): Option<nat> {
    if '0' <= c <= '9' then Some(c as nat - 48) else if 'A' <= c <= 'F' then Some(c as nat - 55) else None
  }

  function EncodeByte(b: byte, slash: bool): string {
    var c := b as int as char;
    if Passes(c, slash) then [c] else ['%', Hex(b as nat / 16), Hex(b as nat % 16)]
  }

  /** The characters that stay as they are, and the digits of an escape, written out. */
  const UPPER: set<char> := {'A', 'B', 'C', 'D', 'E', 'F', 'G', 'H', 'I', 'J', 'K', 'L', 'M', 'N', 'O', 'P', 'Q', 'R', 'S', 'T', 'U', 'V', 'W', 'X', 'Y', 'Z'}
  const LOWER: set<char> := {'a', 'b', 'c', 'd', 'e', 'f', 'g', 'h', 'i', 'j', 'k', 'l', 'm', 'n', 'o', 'p', 'q', 'r', 's', 't', 'u', 'v', 'w', 'x', 'y', 'z'}
  const OTHERS: set<char> := {'0', '1', '2', '3', '4', '5', '6', '7', '8', '9', '-', '.', '_', '~'}
  const DIGITS: string := "0123456789ABCDEF"

  /** Exactly these characters, and '/' for uri_encode, stay; every other byte becomes '%' and its two
      digits, the high one first. */
  lemma EncodedBytes(b: byte, slash: bool)
    ensures var c := b as int as char;
      EncodeByte(b, slash) ==
      if c in UPPER + LOWER + OTHERS || (slash && c == '/') then [c] else ['%', DIGITS[b as int / 16], DIGITS[b as int % 16]]
  {
    InUpper(b as int as char);
    InLower(b as int as char);
    InOthers(b as int as char);
    HexDigits(b as int / 16);
    HexDigits(b as int % 16);
  }

  lemma InUpper(c: char)
    ensures c in UPPER <==> 65 <= c as int <= 90
  {}

  lemma InLower(c: char)
    ensures c in LOWER <==> 97 <= c as int <= 122
  {}

  lemma InOthers(c: char)
    ensures c in OTHERS <==> 48 <= c as int <= 57 || c as int in {45, 46, 95, 126}
  {}

  lemma HexDigits(n: nat)
    requires n < 16
    ensures Hex(n) == DIGITS[n]
  {
    assert n in {0, 1, 2, 3, 4, 5, 6, 7, 8, 9, 10, 11, 12, 13, 14, 15};
  }

  function Encode(s: seq<byte>, slash: bool): string {
    if s == [] then [] else EncodeByte(s[0], slash) + Encode(s[1..], slash)
  }

  /** The decoder of any percent-encoded text. */
  function Decode(s: string): Option<seq<byte>> {
    if s == [] then Some([])
    else if s[0] == '%' then
      if |s| < 3 || UnHex(s[1]).None? || UnHex(s[2]).None? then None
      else Prepend(UnHex(s[1]).value * 16 + UnHex(s[2]).value, Decode(s[3..]))
    else if s[0] as int < 256 then Prepend(s[0] as nat, Decode(s[1..]))
    else None
  }

  function Prepend(b: nat, rest: Option<seq<byte>>): Option<seq<byte>>
    requires b < 256
  {
    if rest.None? then None else Some([b as byte] + rest.value)
  }

  lemma {:induction false} DecodeByte(b: byte, slash: bool, rest: string)
    ensures Decode(EncodeByte(b, slash) + rest) == Prepend(b as nat, Decode(rest))
  {
    var e := EncodeByte(b, slash);
    assert (e + rest)[|e|..] == rest;
  }

  /** Decoding inverts encoding. */
  lemma {:induction false} DecodeInverts(s: seq<byte>, slash: bool)
    ensures Decode(Encode(s, slash)) == Some(s)
  {
    if s != [] {
      DecodeInverts(s[1..], slash);
      DecodeByte(s[0], slash, Encode(s[1..], slash));
      assert s == [s[0]] + s[1..];
    }
  }

  lemma {:induction false} EncodeAppend(a: seq<byte>, b: seq<byte>, slash: bool)
    ensures Encode(a + b, slash) == Encode(a, slash) + Encode(b, slash)
  {
    if a == [] {
      assert a + b == b;
    } else {
      EncodeAppend(a[1..], b, slash);
      assert (a + b)[0] == a[0] && (a + b)[1..] == a[1..] + b;
      Regroup(EncodeByte(a[0], slash), Encode(a[1..], slash), Encode(b, slash));
    }
  }

  /** Encoding one more byte extends the text; the whole text is at least as long. */
  lemma {:induction false} Prefixes(input: seq<byte>, i: nat, slash: bool)
    requires i < |input|
    ensures Encode(input[..i + 1], slash) == Encode(input[..i], slash) + EncodeByte(input[i], slash)
    ensures |Encode(input, slash)| >= |Encode(input[..i + 1], slash)|
  {
    assert input[..i + 1] == input[..i] + [input[i]];
    EncodeAppend(input[..i], [input[i]], slash);
    assert Encode([input[i]], slash) == EncodeByte(input[i], slash) + Encode([], slash);
    assert input == input[..i + 1] + input[i + 1..];
    EncodeAppend(input[..i + 1], input[i + 1..], slash);
  }

  /** An encoded text holds nothing but unreserved characters, '%', and '/' where that passes. */
  lemma {:induction false} EncodedAlphabet(s: seq<byte>, slash: bool, c: char)
    requires c != '%' && !Passes(c, slash)
    ensures c !in Encode(s, slash)
  {
    if s != [] { EncodedAlphabet(s[1..], slash, c); }
  }

  /** uri_encode: fails exactly when the text and its terminator do not fit the buffer. */
  method UriEncode(input: seq<byte>, output: array<char>) returns (n: int)
    modifies output
    ensures n == -1 <==> |Encode(input, true)| >= output.Length
    ensures n != -1 ==> n == |Encode(input, true)| && output[..n] == Encode(input, true) && output[n] == '\0'
  {
    var i, j := 0, 0;
    while i < |input|
      invariant 0 <= i <= |input| && 0 <= j <= output.Length
      invariant output[..j] == Encode(input[..i], true)
    {
      Prefixes(input, i, true);
      if Passes(input[i] as int as char, true) {
        if j + 1 >= output.Length { return -1; }
      } else {
        if j + 3 >= output.Length { return -1; }
      }
      j := Emit(input[i], output, j);
      i := i + 1;
    }
    assert input[..i] == input;
    if j >= output.Length { return -1; }
    output[j] := '\0';
    return j;
  }

  /** One byte, literally or as its escape. */
  method Emit(b: byte, output: array<char>, j: nat) returns (j': nat)
    requires j + |EncodeByte(b, true)| <= output.Length
    modifies output
    ensures j' == j + |EncodeByte(b, true)| && output[..j'] == old(output[..j]) + EncodeByte(b, true)
  {
    var c := b as int as char;
    if Passes(c, true) {
      output[j] := c;
      return j + 1;
    }
    output[j], output[j + 1], output[j + 2] := '%', Hex(b as nat / 16), Hex(b as nat % 16);
    return j + 3;
  }

  /** percent_encode. */
  method PercentEncode(s: seq<byte>) returns (result: string)
    ensures result == Encode(s, false)
  {
    result := "";
    var i := 0;
    while i < |s|
      invariant 0 <= i <= |s| && result == Encode(s[..i], false)
    {
      Prefixes(s, i, false);
      var c := s[i] as int as char;
      if Unreserved(c) {
        result := result + [c];
      } else {
        result := result + ['%', Hex(s[i] as nat / 16), Hex(s[i] as nat % 16)];
      }
      i := i + 1;
    }
    assert s[..i] == s;
  }

  // ------------------------------------------------------------------ the URI builder

  datatype PrefetchMode = All | Nothing

  datatype Builder = Builder(
    database: seq<byte>, account: seq<byte>, container: seq<byte>, sas: Option<seq<byte>>, accountKey: Option<seq<byte>>,
    endpoint: Option<seq<byte>>, cacheDir: Option<seq<byte>>, cacheReuse: bool, prefetch: Option<PrefetchMode>)

  datatype Key = Account | Container | Sas | AccountKey | Endpoint | CacheDir | CacheReuse | Prefetch

  function KeyText(k: Key): string {
    match k
    case Account => "azure_account"
    case Container => "azure_container"
    case Sas => "azure_sas"
    case AccountKey => "azure_key"
    case Endpoint => "azure_endpoint"
    case CacheDir => "cache_dir"
    case CacheReuse => "cache_reuse"
    case Prefetch => "prefetch"
  }

  const ONE: string := "1"

  function ModeText(m: PrefetchMode): string { if m.All? then "all" else "none" }

  /** A query parameter and the text after its '='. */
  datatype Field = Field(key: Key, text: string)

  function FieldText(f: Field): string { KeyText(f.key) + "=" + f.text }

  function Optional(k: Key, v: Option<seq<byte>>): seq<Field> {
    if v.Some? then [Field(k, Encode(v.value, false))] else []
  }

  function Location(b: Builder): seq<Field> {
    [Field(Account, Encode(b.account, false)), Field(Container, Encode(b.container, false))]
  }

  /** A SAS token hides the account key. */
  function Credential(b: Builder): seq<Field> {
    if b.sas.Some? then Optional(Sas, b.sas) else Optional(AccountKey, b.accountKey)
  }

  function Caching(b: Builder): seq<Field> {
    Optional(CacheDir, b.cacheDir)
    + (if b.cacheReuse then [Field(CacheReuse, ONE)] else [])
    + (if b.prefetch.Some? then [Field(Prefetch, ModeText(b.prefetch.value))] else [])
  }

  /** The query parameters a builder stands for, in order. */
  function Fields(b: Builder): seq<Field> { Location(b) + Credential(b) + Optional(Endpoint, b.endpoint) + Caching(b) }

  /** The fields joined by '&'. */
  function Query(fs: seq<Field>): string {
    if fs == [] then ""
    else if |fs| == 1 then FieldText(fs[0])
    else (FieldText(fs[0]) + "&") + Query(fs[1..])
  }

  function Start(database: string): string { "file:" + database + "?" }

  function Uri(b: Builder): string { Start(Encode(b.database, false)) + Query(Fields(b)) }

  /** What a further field appends to a query. */
  function Tail(f: Field): string { "&" + FieldText(f) }

  lemma Regroup(a: string, b: string, c: string)
    ensures (a + b) + c == a + (b + c)
  {}

  lemma {:induction false} QueryAppend(fs: seq<Field>, f: Field)
    requires fs != []
    ensures Query(fs + [f]) == Query(fs) + Tail(f)
  {
    assert (fs + [f])[1..] == fs[1..] + [f];
    if |fs| == 1 {
      assert (fs + [f])[1..] == [f];
      assert Query([f]) == FieldText(f);
    } else {
      QueryAppend(fs[1..], f);
      Regroup(FieldText(fs[0]) + "&", Query(fs[1..]), Tail(f));
    }
  }

  /** Appending one more parameter to a URI under construction. */
  method Push(uri: string, f: Field, ghost prefix: string, ghost fs: seq<Field>) returns (longer: string)
    requires fs != [] && uri == prefix + Query(fs)
    ensures longer == prefix + Query(fs + [f])
  {
    QueryAppend(fs, f);
    var tail := Tail(f);
    Regroup(prefix, Query(fs), tail);
    longer := uri + tail;
  }

  method PushOptional(uri: string, key: Key, v: Option<seq<byte>>, ghost prefix: string, ghost fs: seq<Field>) returns (longer: string)
    requires fs != [] && uri == prefix + Query(fs)
    ensures longer == prefix + Query(fs + Optional(key, v))
  {
    if v.Some? {
      var text := PercentEncode(v.value);
      longer := Push(uri, Field(key, text), prefix, fs);
    } else {
      assert fs + Optional(key, v) == fs;
      longer := uri;
    }
  }

  method PushCredential(b: Builder, uri: string, ghost prefix: string, ghost fs: seq<Field>) returns (longer: string)
    requires fs != [] && uri == prefix + Query(fs)
    ensures longer == prefix + Query(fs + Credential(b))
  {
    if b.sas.Some? {
      longer := PushOptional(uri, Sas, b.sas, prefix, fs);
    } else {
      longer := PushOptional(uri, AccountKey, b.accountKey, prefix, fs);
    }
  }

  method PushCaching(b: Builder, uri: string, ghost prefix: string, ghost fs: seq<Field>) returns (longer: string)
    requires fs != [] && uri == prefix + Query(fs)
    ensures longer == prefix + Query(fs + Caching(b))
  {
    longer := PushOptional(uri, CacheDir, b.cacheDir, prefix, fs);
    ghost var more := fs + Optional(CacheDir, b.cacheDir);
    if b.cacheReuse {
      longer := Push(longer, Field(CacheReuse, ONE), prefix, more);
      more := more + [Field(CacheReuse, ONE)];
    }
    if b.prefetch.Some? {
      longer := Push(longer, Field(Prefetch, ModeText(b.prefetch.value)), prefix, more);
      more := more + [Field(Prefetch, ModeText(b.prefetch.value))];
    }
    assert more == fs + Caching(b);
  }

  /** UriBuilder::build. */
  method Build(b: Builder) returns (uri: string)
    ensures uri == Uri(b)
  {
    var database := PercentEncode(b.database);
    var account := PercentEncode(b.account);
    var container := PercentEncode(b.container);
    var start := Start(database);
    uri := start + FieldText(Field(Account, account));
    uri := Push(uri, Field(Container, container), start, [Field(Account, account)]);
    assert [Field(Account, account)] + [Field(Container, container)] == Location(b);
    uri := PushCredential(b, uri, start, Location(b));
    uri := PushOptional(uri, Endpoint, b.endpoint, start, Location(b) + Credential(b));
    uri := PushCaching(b, uri, start, Location(b) + Credential(b) + Optional(Endpoint, b.endpoint));
  }

  // ------------------------------------------------------------------ the text, written out

  function Escaped(v: seq<byte>): string { Encode(v, false) }

  function CredentialText(b: Builder): string {
    if b.sas.Some? then "&azure_sas=" + Escaped(b.sas.value)
    else if b.accountKey.Some? then "&azure_key=" + Escaped(b.accountKey.value)
    else ""
  }

  function EndpointText(b: Builder): string {
    if b.endpoint.Some? then "&azure_endpoint=" + Escaped(b.endpoint.value) else ""
  }

  function CacheDirText(b: Builder): string {
    if b.cacheDir.Some? then "&cache_dir=" + Escaped(b.cacheDir.value) else ""
  }

  function CacheReuseText(b: Builder): string { if b.cacheReuse then "&cache_reuse=1" else "" }

  function PrefetchText(b: Builder): string {
    if b.prefetch == Some(All) then "&prefetch=all" else if b.prefetch == Some(Nothing) then "&prefetch=none" else ""
  }

  function Tails(fs: seq<Field>): string {
    if fs == [] then "" else Tail(fs[0]) + Tails(fs[1..])
  }

  lemma {:induction false} TailsAppend(fs: seq<Field>, gs: seq<Field>)
    ensures Tails(fs + gs) == Tails(fs) + Tails(gs)
  {
    if fs == [] {
      assert fs + gs == gs;
    } else {
      var f, rest := fs[0], fs[1..];
      assert fs == [f] + rest && fs + gs == [f] + (rest + gs);
      TailsAppend(rest, gs);
      TailsCons(f, rest);
      TailsCons(f, rest + gs);
      Regroup(Tail(f), Tails(rest), Tails(gs));
    }
  }

  lemma {:induction false} TailsCons(f: Field, rest: seq<Field>)
    ensures Tails([f] + rest) == Tail(f) + Tails(rest)
  {
    assert ([f] + rest)[1..] == rest;
  }

  lemma {:induction false} QueryIsTails(fs: seq<Field>)
    requires fs != []
    ensures Query(fs) == FieldText(fs[0]) + Tails(fs[1..])
  {
    if |fs| > 1 {
      QueryIsTails(fs[1..]);
      Regroup(FieldText(fs[0]), "&", Query(fs[1..]));
      Regroup("&", FieldText(fs[1]), Tails(fs[1..][1..]));
    } else {
      assert Tails(fs[1..]) == "";
    }
  }

  lemma OneTail(f: Field)
    ensures Tails([f]) == Tail(f)
  {
    assert [f][1..] == [];
  }

  lemma CredentialTails(b: Builder)
    ensures Tails(Credential(b)) == CredentialText(b)
  {
    if b.sas.Some? {
      OneTail(Field(Sas, Escaped(b.sas.value)));
    } else if b.accountKey.Some? {
      OneTail(Field(AccountKey, Escaped(b.accountKey.value)));
    }
  }

  lemma EndpointTails(b: Builder)
    ensures Tails(Optional(Endpoint, b.endpoint)) == EndpointText(b)
  {
    if b.endpoint.Some? { OneTail(Field(Endpoint, Escaped(b.endpoint.value))); }
  }

  lemma CacheDirTails(b: Builder)
    ensures Tails(Optional(CacheDir, b.cacheDir)) == CacheDirText(b)
  {
    if b.cacheDir.Some? { OneTail(Field(CacheDir, Escaped(b.cacheDir.value))); }
  }

  lemma CacheReuseTails(b: Builder)
    ensures Tails(if b.cacheReuse then [Field(CacheReuse, ONE)] else []) == CacheReuseText(b)
  {
    OneTail(Field(CacheReuse, ONE));
    assert Tail(Field(CacheReuse, ONE)) == "&cache_reuse=1";
  }

  lemma PrefetchTails(b: Builder)
    ensures Tails(if b.prefetch.Some? then [Field(Prefetch, ModeText(b.prefetch.value))] else []) == PrefetchText(b)
  {
    if b.prefetch.Some? { OneTail(Field(Prefetch, ModeText(b.prefetch.value))); }
  }

  lemma {:induction false} JoinThree(f: seq<Field>, g: seq<Field>, h: seq<Field>)
    ensures Tails(f + g + h) == Tails(f) + Tails(g) + Tails(h)
  {
    TailsAppend(f + g, h);
    TailsAppend(f, g);
  }

  lemma CachingTails(b: Builder)
    ensures Tails(Caching(b)) == CacheDirText(b) + CacheReuseText(b) + PrefetchText(b)
  {
    JoinThree(Optional(CacheDir, b.cacheDir), if b.cacheReuse then [Field(CacheReuse, ONE)] else [],
              if b.prefetch.Some? then [Field(Prefetch, ModeText(b.prefetch.value))] else []);
    CacheDirTails(b);
    CacheReuseTails(b);
    PrefetchTails(b);
  }

  lemma LocationText(b: Builder)
    ensures Query(Location(b)) == "azure_account=" + Escaped(b.account) + ("&azure_container=" + Escaped(b.container))
  {
    var account, container := Escaped(b.account), Escaped(b.container);
    var fs := [Field(Account, account), Field(Container, container)];
    QueryIsTails(fs);
    assert fs[1..] == [fs[1]];
    OneTail(fs[1]);
    AccountText(account);
    ContainerText(container);
  }

  lemma AccountText(t: string)
    ensures FieldText(Field(Account, t)) == "azure_account=" + t
  {}

  lemma ContainerText(t: string)
    ensures Tail(Field(Container, t)) == "&azure_container=" + t
  {}

  lemma {:induction false} QueryOfMore(fs: seq<Field>, gs: seq<Field>)
    requires fs != []
    ensures Query(fs + gs) == Query(fs) + Tails(gs)
  {
    assert (fs + gs)[0] == fs[0] && (fs + gs)[1..] == fs[1..] + gs;
    QueryIsTails(fs + gs);
    QueryIsTails(fs);
    TailsAppend(fs[1..], gs);
    Regroup(FieldText(fs[0]), Tails(fs[1..]), Tails(gs));
  }

  /** The URI of every builder, parameter by parameter. */
  lemma UriText(b: Builder)
    ensures Uri(b) == ("file:" + Escaped(b.database) + "?")
                      + ("azure_account=" + Escaped(b.account) + ("&azure_container=" + Escaped(b.container))
                         + CredentialText(b) + EndpointText(b) + (CacheDirText(b) + CacheReuseText(b) + PrefetchText(b)))
  {
    QueryOfMore(Location(b) + Credential(b) + Optional(Endpoint, b.endpoint), Caching(b));
    QueryOfMore(Location(b) + Credential(b), Optional(Endpoint, b.endpoint));
    QueryOfMore(Location(b), Credential(b));
    LocationText(b);
    CredentialTails(b);
    EndpointTails(b);
    CachingTails(b);
  }

  // ------------------------------------------------------------------ reading a URI back

  function Before(s: string, c: char): (r: string)
    ensures |r| <= |s|
  {
    if s == [] || s[0] == c then [] else [s[0]] + Before(s[1..], c)
  }

  function After(s: string, c: char): (r: string)
    ensures s != [] ==> |r| < |s|
  {
    if s == [] then [] else if s[0] == c then s[1..] else After(s[1..], c)
  }

  lemma {:induction false} CutAt(a: string, c: char, b: string)
    requires c !in a
    ensures Before(a + [c] + b, c) == a && After(a + [c] + b, c) == b
    ensures Before(a, c) == a && After(a, c) == []
  {
    var s := a + [c] + b;
    if a == [] {
      assert s[1..] == b;
    } else {
      CutAt(a[1..], c, b);
      assert s[1..] == a[1..] + [c] + b;
      assert a == [a[0]] + a[1..];
    }
  }

  /** The value text of the first parameter named k in a query. */
  function Parameter(q: string, k: Key): Option<string>
    decreases |q|
  {
    if q == [] then None
    else
      var part := Before(q, '&');
      if Before(part, '=') == KeyText(k) then Some(After(part, '=')) else Parameter(After(q, '&'), k)
  }

  /** SQLite ignores the rest of a name or value after an encoded zero byte. */
  function Cut(v: seq<byte>): seq<byte> {
    if v == [] || v[0] == 0 then [] else [v[0]] + Cut(v[1..])
  }

  lemma {:induction false} CutWholeIff(v: seq<byte>)
    ensures Cut(v) == v <==> 0 !in v
  {
    if v != [] && v[0] != 0 {
      CutWholeIff(v[1..]);
      assert v == [v[0]] + v[1..];
      if Cut(v) == v { assert Cut(v[1..]) == Cut(v)[1..] == v[1..]; }
    }
  }

  function CutOption(v: Option<seq<byte>>): Option<seq<byte>> {
    if v.Some? then Some(Cut(v.value)) else None
  }

  function DecodedParameter(q: string, k: Key): Option<seq<byte>> {
    var t := Parameter(q, k);
    if t.None? then None else CutOption(Decode(t.value))
  }

  /** Key texts are distinct and free of separators. */
  lemma KeyTexts(k: Key, j: Key)
    ensures '&' !in KeyText(k) && '=' !in KeyText(k)
    ensures KeyText(k) == KeyText(j) ==> k == j
  {
    assert |KeyText(k)| == |KeyText(j)| && |KeyText(k)| == 9 ==> k == j || KeyText(k)[6] != KeyText(j)[6];
  }

  /** The text of the first field with key k. */
  function First(fs: seq<Field>, k: Key): Option<string> {
    if fs == [] then None else if fs[0].key == k then Some(fs[0].text) else First(fs[1..], k)
  }

  predicate Plain(fs: seq<Field>) { forall i :: 0 <= i < |fs| ==> '&' !in fs[i].text }

  lemma {:induction false} FieldParts(f: Field, rest: string)
    requires '&' !in f.text
    ensures Before(FieldText(f) + "&" + rest, '&') == FieldText(f) && After(FieldText(f) + "&" + rest, '&') == rest
    ensures Before(FieldText(f), '&') == FieldText(f) && After(FieldText(f), '&') == []
    ensures Before(FieldText(f), '=') == KeyText(f.key) && After(FieldText(f), '=') == f.text
  {
    KeyTexts(f.key, f.key);
    CutAt(FieldText(f), '&', rest);
    CutAt(KeyText(f.key), '=', f.text);
  }

  /** Splitting a joined query finds the first field of every key. */
  lemma {:induction false} SplitQuery(fs: seq<Field>, k: Key)
    requires Plain(fs)
    ensures Parameter(Query(fs), k) == First(fs, k)
  {
    if fs != [] {
      var rest := Query(fs[1..]);
      FieldParts(fs[0], rest);
      KeyTexts(fs[0].key, k);
      assert FieldText(fs[0])[|KeyText(fs[0].key)|] == '=';
      SplitQuery(fs[1..], k);
    }
  }

  lemma OptionalPlain(k: Key, v: Option<seq<byte>>)
    ensures Plain(Optional(k, v))
  {
    if v.Some? { EncodedAlphabet(v.value, false, '&'); }
  }

  lemma PlainAppend(a: seq<Field>, c: seq<Field>)
    requires Plain(a) && Plain(c)
    ensures Plain(a + c)
  {}

  lemma FieldsPlain(b: Builder)
    ensures Plain(Fields(b))
  {
    OptionalPlain(Account, Some(b.account));
    OptionalPlain(Container, Some(b.container));
    assert Location(b) == Optional(Account, Some(b.account)) + Optional(Container, Some(b.container));
    OptionalPlain(Sas, b.sas);
    OptionalPlain(AccountKey, b.accountKey);
    PlainAppend(Location(b), Credential(b));
    OptionalPlain(Endpoint, b.endpoint);
    PlainAppend(Location(b) + Credential(b), Optional(Endpoint, b.endpoint));
    CachingPlain(b);
    PlainAppend(Location(b) + Credential(b) + Optional(Endpoint, b.endpoint), Caching(b));
  }

  lemma CachingPlain(b: Builder)
    ensures Plain(Caching(b))
  {
    OptionalPlain(CacheDir, b.cacheDir);
    var reuse := if b.cacheReuse then [Field(CacheReuse, ONE)] else [];
    var mode := if b.prefetch.Some? then [Field(Prefetch, ModeText(b.prefetch.value))] else [];
    PlainAppend(Optional(CacheDir, b.cacheDir), reuse);
    PlainAppend(Optional(CacheDir, b.cacheDir) + reuse, mode);
  }

  lemma {:induction false} FirstAppend(a: seq<Field>, c: seq<Field>, k: Key)
    ensures First(a + c, k) == if First(a, k).Some? then First(a, k) else First(c, k)
  {
    if a == [] {
      assert a + c == c;
    } else {
      FirstAppend(a[1..], c, k);
      assert (a + c)[1..] == a[1..] + c;
    }
  }

  function ReadMode(t: Option<string>): Option<PrefetchMode> {
    if t.None? then None else if t.value == ModeText(All) then Some(All) else Some(Nothing)
  }

  /** The builder that a decoded database name and a query are read back as. */
  function ReadQuery(database: seq<byte>, q: string): Option<Builder> {
    var account, container := DecodedParameter(q, Account), DecodedParameter(q, Container);
    if account.None? || container.None? then None
    else
      Some(Builder(database, account.value, container.value, DecodedParameter(q, Sas), DecodedParameter(q, AccountKey),
                   DecodedParameter(q, Endpoint), DecodedParameter(q, CacheDir), Parameter(q, CacheReuse) == Some(ONE),
                   ReadMode(Parameter(q, Prefetch))))
  }

  /** The builder a URI is read back as: the name up to '?', the query after it. */
  function ReadUri(uri: string): Option<Builder> {
    if |uri| < 5 then None
    else
      var database := Decode(Before(uri[5..], '?'));
      if database.None? then None else ReadQuery(Cut(database.value), After(uri[5..], '?'))
  }

  function EncodedOption(v: Option<seq<byte>>): Option<string> {
    if v.Some? then Some(Encode(v.value, false)) else None
  }

  /** What a builder says about a key. */
  function Value(b: Builder, k: Key): Option<string> {
    match k
    case Account => Some(Encode(b.account, false))
    case Container => Some(Encode(b.container, false))
    case Sas => EncodedOption(b.sas)
    case AccountKey => if b.sas.Some? then None else EncodedOption(b.accountKey)
    case Endpoint => EncodedOption(b.endpoint)
    case CacheDir => EncodedOption(b.cacheDir)
    case CacheReuse => if b.cacheReuse then Some(ONE) else None
    case Prefetch => if b.prefetch.Some? then Some(ModeText(b.prefetch.value)) else None
  }

  lemma {:induction false} FirstOptional(k: Key, v: Option<seq<byte>>, j: Key)
    ensures First(Optional(k, v), j) == if j == k then EncodedOption(v) else None
  {
    FirstOne(Field(k, if v.Some? then Encode(v.value, false) else ""), j);
  }

  lemma {:induction false} FirstOne(f: Field, j: Key)
    ensures First([f], j) == if j == f.key then Some(f.text) else None
  {
    assert [f][1..] == [];
  }

  lemma {:induction false} FirstOf(b: Builder, k: Key)
    ensures First(Fields(b), k) == Value(b, k)
  {
    FirstAppend(Location(b) + Credential(b) + Optional(Endpoint, b.endpoint), Caching(b), k);
    FirstAppend(Location(b) + Credential(b), Optional(Endpoint, b.endpoint), k);
    FirstAppend(Location(b), Credential(b), k);
    FirstOptional(Sas, b.sas, k);
    FirstOptional(AccountKey, b.accountKey, k);
    FirstOptional(Endpoint, b.endpoint, k);
    FirstOfCaching(b, k);
    assert Location(b)[1..] == [Location(b)[1]];
    FirstOne(Location(b)[1], k);
  }

  lemma {:induction false} FirstOfCaching(b: Builder, k: Key)
    ensures First(Caching(b), k) == if k in {CacheDir, CacheReuse, Prefetch} then Value(b, k) else None
  {
    var dir, reuse := Optional(CacheDir, b.cacheDir), if b.cacheReuse then [Field(CacheReuse, ONE)] else [];
    var mode := if b.prefetch.Some? then [Field(Prefetch, ModeText(b.prefetch.value))] else [];
    FirstAppend(dir + reuse, mode, k);
    FirstAppend(dir, reuse, k);
    FirstOptional(CacheDir, b.cacheDir, k);
    FirstOne(Field(CacheReuse, ONE), k);
    FirstOne(Field(Prefetch, ModeText(if b.prefetch.Some? then b.prefetch.value else All)), k);
  }

  lemma {:induction false} ParameterOf(b: Builder, k: Key)
    ensures Parameter(Query(Fields(b)), k) == Value(b, k)
  {
    FieldsPlain(b);
    SplitQuery(Fields(b), k);
    FirstOf(b, k);
  }

  /** A query that answers every key as the builder does. */
  ghost predicate Says(q: string, b: Builder) { forall k :: Parameter(q, k) == Value(b, k) }

  lemma QuerySays(b: Builder)
    ensures Says(Query(Fields(b)), b)
  {
    forall k ensures Parameter(Query(Fields(b)), k) == Value(b, k) { ParameterOf(b, k); }
  }

  lemma DecodedOf(q: string, b: Builder, k: Key, v: Option<seq<byte>>)
    requires Says(q, b) && Value(b, k) == EncodedOption(v)
    ensures DecodedParameter(q, k) == CutOption(v)
  {
    if v.Some? { DecodeInverts(v.value, false); }
  }

  lemma UriParts(database: string, query: string)
    requires '?' !in database
    ensures |Start(database)| >= 5
    ensures Before((Start(database) + query)[5..], '?') == database && After((Start(database) + query)[5..], '?') == query
  {
    CutAt(database, '?', query);
    assert Start(database)[5..] == database + "?";
    assert (Start(database) + query)[5..] == Start(database)[5..] + query;
  }

  /** What a URI is meant to carry: every field, except an account key that a SAS token hides. */
  function Visible(b: Builder): Builder { if b.sas.Some? then b.(accountKey := None) else b }

  /** Every field cut at its first zero byte. */
  function CutFields(b: Builder): Builder {
    Builder(Cut(b.database), Cut(b.account), Cut(b.container), CutOption(b.sas), CutOption(b.accountKey),
            CutOption(b.endpoint), CutOption(b.cacheDir), b.cacheReuse, b.prefetch)
  }

  predicate ZeroFree(v: Option<seq<byte>>) { v.Some? ==> 0 !in v.value }

  lemma CutOptionIff(v: Option<seq<byte>>)
    ensures CutOption(v) == v <==> ZeroFree(v)
  {
    if v.Some? { CutWholeIff(v.value); }
  }

  lemma ReadQueryBack(q: string, b: Builder)
    requires Says(q, b)
    ensures ReadQuery(Cut(b.database), q) == Some(CutFields(Visible(b)))
  {
    DecodedOf(q, b, Account, Some(b.account));
    DecodedOf(q, b, Container, Some(b.container));
    DecodedOf(q, b, Sas, b.sas);
    DecodedOf(q, b, AccountKey, Visible(b).accountKey);
    DecodedOf(q, b, Endpoint, b.endpoint);
    DecodedOf(q, b, CacheDir, b.cacheDir);
    ModeBack(b);
  }

  lemma ModeBack(b: Builder)
    ensures ReadMode(Value(b, Prefetch)) == b.prefetch
  {
    assert |ModeText(All)| != |ModeText(Nothing)|;
  }

  /** Reading a built URI back gives every field, up to its first zero byte. */
  lemma ReadBack(b: Builder)
    ensures ReadUri(Uri(b)) == Some(CutFields(Visible(b)))
  {
    EncodedAlphabet(b.database, false, '?');
    var q := Query(Fields(b));
    UriParts(Encode(b.database, false), q);
    DecodeInverts(b.database, false);
    QuerySays(b);
    ReadQueryBack(q, b);
  }

  /** Hence the whole of every field exactly if none holds a zero byte. */
  lemma ReadBackIff(b: Builder)
    ensures var v := Visible(b);
      ReadUri(Uri(b)) == Some(v) <==>
        && 0 !in v.database && 0 !in v.account && 0 !in v.container
        && ZeroFree(v.sas) && ZeroFree(v.accountKey) && ZeroFree(v.endpoint) && ZeroFree(v.cacheDir)
  {
    ReadBack(b);
    var v := Visible(b);
    CutWholeIff(v.database);
    CutWholeIff(v.account);
    CutWholeIff(v.container);
    CutOptionIff(v.sas);
    CutOptionIff(v.accountKey);
    CutOptionIff(v.endpoint);
    CutOptionIff(v.cacheDir);
  }
}
