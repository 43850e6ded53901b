/**
 * The access-token credential store: issues, checks, lists and deletes API
 * credentials kept in an injected key-value store.
 *
 * The store is a map from keys to stored values, iterated in ascending key
 * order as the underlying ordered key-value store does. A key is the JSON
 * encoding of a token id; a value is the JSON encoding of a Token record, or
 * bytes that do not decode as one. SHA3-256 is the injected function `hash`
 * from 32-byte blocks to 32-byte blocks; the random secret and any error of the
 * random source are parameters of Create.
 */
module AccessToken {
  import opened Wrappers
  import opened HexFormat
  import opened StrConv
  import opened StringOrder

  const TokenSize: nat := 32
  const DefGenericPageSize: nat := 100

  /** A secret or a digest: exactly TokenSize bytes. */
  type Block = s: seq<byte> | |s| == TokenSize witness seq(TokenSize, _ => 0)

  /** The errors the store returns. */
  datatype Error =
    | BadID          // the id does not match the id pattern
    | DuplicateID    // Create on an id already stored
    | BadType        // declared for a bad token type, never returned: the type is not validated
    | NoMatchID      // Check on an id not stored
    | InvalidAfter   // List with an unparsable or out-of-range cursor
    | NoAccessToken  // List on an empty store
    | RandomSource   // the random source failed
    | Undecodable    // the stored value under the id is not a JSON Token

  /** The persisted record: `token` holds `id ":" hex(hash(secret))`, never the secret. */
  datatype Token = Token(id: string, token: string, typ: string, created: int)

  /** A value in the key-value store: a decodable Token record, or anything else. */
  datatype Stored = Record(t: Token) | Garbled(raw: seq<byte>)

  /** Check's answer: Go's `(bool, error)` pair. */
  datatype CheckResult = CheckResult(valid: bool, err: Option<Error>)

  /** List's answer: a page, an error with the last-page flag Go returns beside it, or a slice-bounds panic. */
  datatype ListResult<V> =
    | ListOk(items: seq<V>, next: string, last: bool)
    | ListErr(err: Error, last: bool)
    | ListPanic

  // ---------------------------------------------------------------- ids and keys

  /** A character of `[\w-]`: an ASCII letter, digit, underscore or hyphen. */
  predicate IdChar(c: char) {
    ('a' <= c <= 'z') || ('A' <= c <= 'Z') || ('0' <= c <= '9') || c == '_' || c == '-'
  }

  /** The id pattern `^[\w-]+$`: at least one character, every one an IdChar. */
  predicate ValidID(id: string) {
    |id| > 0 && forall i :: 0 <= i < |id| ==> IdChar(id[i])
  }

  /**
   * What the pattern admits, character by character: a valid id is non-empty
   * and made of ASCII letters, digits, `_` and `-`, so it holds no colon, no
   * double quote, no backslash and no space.
   */
  lemma ValidIDChars(id: string)
    ensures ValidID(id) <==> |id| > 0 && forall c :: c in id ==> IdChar(c)
    ensures ValidID(id) ==> ':' !in id && '"' !in id && '\\' !in id && ' ' !in id
  {
    if |id| > 0 && forall c :: c in id ==> IdChar(c) {
      forall i | 0 <= i < |id| ensures IdChar(id[i]) {
        assert id[i] in id;
      }
    }
  }

  /** Some ids the pattern accepts and rejects. */
  lemma ValidIDExamples()
    ensures ValidID("my_token-1")
    ensures !ValidID("")
    ensures !ValidID("a b") && !ValidID("a:b") && !ValidID("a.b")
  {
    assert !IdChar(' ') && !IdChar(':') && !IdChar('.');
    assert "a b"[1] == ' ' && "a:b"[1] == ':' && "a.b"[1] == '.';
  }

  /**
   * `json.Marshal(id)` for a valid id: the id in double quotes (none of its
   * characters needs escaping).
   */
  function Key(id: string): (k: string)
    requires ValidID(id)
    ensures |k| == |id| + 2 && k[0] == '"' && k[|k| - 1] == '"' && k[1..|k| - 1] == id
    ensures forall i :: 0 < i < |k| - 1 ==> k[i] != '"' && k[i] != '\\'
  {
    "\"" + id + "\""
  }

  /** Distinct ids are stored under distinct keys. */
  lemma KeyInjective(a: string, b: string)
    requires ValidID(a) && ValidID(b)
    ensures Key(a) == Key(b) <==> a == b
  {
    if Key(a) == Key(b) {
      assert a == Key(a)[1..|Key(a)| - 1];
      assert b == Key(b)[1..|Key(b)| - 1];
    }
  }

  // ---------------------------------------------------------- "%s:%x" strings

  /** `fmt.Sprintf("%s:%x", id, bytes)`: the shape of both the digest and the issued token. */
  function IdHex(id: string, bytes: seq<byte>): (s: string)
    ensures |s| == |id| + 1 + 2 * |bytes|
    ensures s[..|id|] == id && s[|id|] == ':'
    ensures forall i :: |id| < i < |s| ==> IsHexDigit(s[i])
  {
    id + ":" + Hex(bytes)
  }

  /** The index of the first `:` in s, if any. */
  function FirstColon(s: string): (r: Option<nat>)
    ensures r.Some? ==> r.value < |s| && s[r.value] == ':'
    ensures r.Some? ==> forall i :: 0 <= i < r.value ==> s[i] != ':'
    ensures r.None? ==> forall i :: 0 <= i < |s| ==> s[i] != ':'
  {
    if s == [] then None
    else if s[0] == ':' then Some(0)
    else match FirstColon(s[1..])
      case None => None
      case Some(i) => Some(i + 1)
  }

  /** Splits `id ":" hex` at the first colon and decodes the hexadecimal part. */
  function SplitIdHex(s: string): Option<(string, seq<byte>)> {
    match FirstColon(s)
    case None => None
    case Some(i) =>
      match Unhex(s[i + 1..])
      case None => None
      case Some(bytes) => Some((s[..i], bytes))
  }

  /** A valid id holds no colon, so `id ":" hex(bytes)` splits back into id and bytes. */
  lemma IdHexRoundTrip(id: string, bytes: seq<byte>)
    requires ValidID(id)
    ensures SplitIdHex(IdHex(id, bytes)) == Some((id, bytes))
  {
    var s := IdHex(id, bytes);
    assert s[|id|] == ':';
    assert forall i :: 0 <= i < |id| ==> s[i] == id[i] && s[i] != ':';
    assert FirstColon(s) == Some(|id|);
    assert s[|id| + 1..] == Hex(bytes);
    assert s[..|id|] == id;
    UnhexHex(bytes);
  }

  /** Equal `%s:%x` strings over valid ids come from equal ids and equal bytes. */
  lemma IdHexInjective(id1: string, b1: seq<byte>, id2: string, b2: seq<byte>)
    requires ValidID(id1) && ValidID(id2)
    ensures IdHex(id1, b1) == IdHex(id2, b2) <==> id1 == id2 && b1 == b2
  {
    IdHexRoundTrip(id1, b1);
    IdHexRoundTrip(id2, b2);
  }

  /**
   * The string Create hands out, `id ":" hex(secret)`: the id, a colon and
   * exactly 64 hexadecimal digits that decode back to the secret.
   */
  lemma IssuedTokenShape(id: string, secret: Block)
    requires ValidID(id)
    ensures |IdHex(id, secret)| == |id| + 1 + 2 * TokenSize
    ensures IdHex(id, secret)[..|id|] == id && IdHex(id, secret)[|id|] == ':'
    ensures SplitIdHex(IdHex(id, secret)) == Some((id, secret))
  {
    IdHexRoundTrip(id, secret);
  }

  // ------------------------------------------------------------ secret framing

  /**
   * `copy(toHash[:], secret)` into a zeroed 32-byte array: the first 32 bytes
   * of the secret, zero-padded when it is shorter.
   */
  function Frame(secret: seq<byte>): (b: Block)
    ensures forall i :: 0 <= i < TokenSize ==> b[i] == (if i < |secret| then secret[i] else 0)
  {
    if |secret| >= TokenSize then secret[..TokenSize]
    else secret + seq(TokenSize - |secret|, _ => 0)
  }

  /** Framing leaves a secret of exactly 32 bytes as it is. */
  lemma FrameOfBlock(secret: Block)
    ensures Frame(secret) == secret
  {
    assert Frame(secret) == secret[..TokenSize];
  }

  /** Secrets that agree on their zero-padded 32-byte prefix frame to the same block. */
  lemma FrameAgrees(a: seq<byte>, b: seq<byte>)
    requires forall i :: 0 <= i < TokenSize ==>
      (if i < |a| then a[i] else 0) == (if i < |b| then b[i] else 0)
    ensures Frame(a) == Frame(b)
  {
    assert forall i :: 0 <= i < TokenSize ==> Frame(a)[i] == Frame(b)[i];
  }

  // ---------------------------------------------------------------- pagination

  /** The offset a List cursor denotes: 0 for the empty cursor, else `strconv.Atoi`. */
  function Offset(after: string): (r: Option<GoInt>)
    ensures after == "" ==> r == Some(0)
  {
    if after == "" then Some(0) else Atoi(after)
  }

  /**
   * What List computes from the store's values in iteration order: the
   * cursor check, the empty-store and out-of-range errors, the page
   * `tokens[offset:end]` with `end = offset + limit` in 64-bit arithmetic
   * clamped to the count, the next cursor and the last-page flag; a negative
   * offset or an end below the offset makes Go's slice expression panic.
   */
  function Paginate<V>(tokens: seq<V>, after: string, limit: GoInt, defaultLimit: GoInt): (r: ListResult<V>)
    ensures r.ListOk? ==> Offset(after).Some? && 0 <= Offset(after).value < |tokens|
    ensures r.ListOk? ==> Offset(after).value + |r.items| <= |tokens|
    ensures r.ListErr? ==> (r.last <==> r.err == NoAccessToken)
  {
    match Offset(after)
    case None => ListErr(InvalidAfter, false)
    case Some(off) =>
      if |tokens| == 0 then ListErr(NoAccessToken, true)
      else if |tokens| <= off then ListErr(InvalidAfter, false)
      else
        var sum := Add(off, limit);
        var end := if |tokens| > sum then sum else |tokens|;
        if off < 0 || end < off then ListPanic
        else ListOk(tokens[off..end], Itoa(end), |tokens| == end || |tokens| < defaultLimit)
  }

  /**
   * A page is returned exactly when the cursor parses to an offset inside the
   * store, the limit is not negative and offset + limit fits in an int; the
   * page is then the values [offset, min(count, offset + limit)), the cursor
   * is that end in decimal, and the page is last iff it reaches the end or the
   * store holds fewer than defaultLimit values.
   */
  lemma PaginateOk<V>(tokens: seq<V>, after: string, limit: GoInt, defaultLimit: GoInt)
    ensures Paginate(tokens, after, limit, defaultLimit).ListOk? <==>
      Offset(after).Some? && 0 <= Offset(after).value < |tokens| && 0 <= limit &&
      Offset(after).value + limit <= MaxInt
    ensures Paginate(tokens, after, limit, defaultLimit).ListOk? ==>
      var off := Offset(after).value;
      var end := if off + limit < |tokens| then off + limit else |tokens|;
      Paginate(tokens, after, limit, defaultLimit) ==
        ListOk(tokens[off..end], Itoa(end), end == |tokens| || |tokens| < defaultLimit)
  {
    if Offset(after).Some? && 0 <= Offset(after).value < |tokens| {
      var off := Offset(after).value;
      if limit >= 0 && off + limit > MaxInt {
        assert Add(off, limit) == off + limit - Modulus;
      }
    }
  }

  /** The error cases of List, in the order Go tests them. */
  lemma PaginateErrors<V>(tokens: seq<V>, after: string, limit: GoInt, defaultLimit: GoInt)
    ensures after != "" && Atoi(after).None? ==>
      Paginate(tokens, after, limit, defaultLimit) == ListErr(InvalidAfter, false)
    ensures Offset(after).Some? && |tokens| == 0 ==>
      Paginate(tokens, after, limit, defaultLimit) == ListErr(NoAccessToken, true)
    ensures Offset(after).Some? && 0 < |tokens| <= Offset(after).value ==>
      Paginate(tokens, after, limit, defaultLimit) == ListErr(InvalidAfter, false)
    ensures Paginate(tokens, after, limit, defaultLimit).ListErr? <==>
      Offset(after).None? || |tokens| == 0 || |tokens| <= Offset(after).value
  {
  }

  /** The returned cursor parses to the offset just past the page. */
  lemma NextCursor<V>(tokens: seq<V>, after: string, limit: GoInt, defaultLimit: GoInt)
    requires Paginate(tokens, after, limit, defaultLimit).ListOk?
    ensures var page := Paginate(tokens, after, limit, defaultLimit);
      Offset(page.next) == Some(Offset(after).value + |page.items|)
  {
    PageSlice(tokens, after, limit, defaultLimit);
    var page := Paginate(tokens, after, limit, defaultLimit);
    var end := Offset(after).value + |page.items|;
    AtoiItoa(end);
    assert Itoa(end) != "";
  }

  /** The cursor returned with the page that reaches the end of the store is rejected as out of range. */
  lemma CursorPastEnd<V>(tokens: seq<V>, after: string, limit: GoInt, defaultLimit: GoInt)
    requires Paginate(tokens, after, limit, defaultLimit).ListOk?
    requires Offset(after).value + |Paginate(tokens, after, limit, defaultLimit).items| == |tokens|
    ensures Paginate(tokens, Paginate(tokens, after, limit, defaultLimit).next, limit, defaultLimit)
      == ListErr(InvalidAfter, false)
  {
    NextCursor(tokens, after, limit, defaultLimit);
    PaginateErrors(tokens, Paginate(tokens, after, limit, defaultLimit).next, limit, defaultLimit);
  }

  /** Following the returned cursor gives the values right after the page: the two pages are one slice. */
  lemma NextPageFollows<V>(tokens: seq<V>, after: string, limit: GoInt, defaultLimit: GoInt)
    requires Paginate(tokens, after, limit, defaultLimit).ListOk?
    requires Paginate(tokens, Paginate(tokens, after, limit, defaultLimit).next, limit, defaultLimit).ListOk?
    ensures
      var page := Paginate(tokens, after, limit, defaultLimit);
      var more := Paginate(tokens, page.next, limit, defaultLimit).items;
      var off := Offset(after).value;
      off + |page.items| + |more| <= |tokens| && page.items + more == tokens[off..off + |page.items| + |more|]
  {
    var page := Paginate(tokens, after, limit, defaultLimit);
    var second := Paginate(tokens, page.next, limit, defaultLimit);
    PageSlice(tokens, after, limit, defaultLimit);
    NextCursor(tokens, after, limit, defaultLimit);
    PageSlice(tokens, page.next, limit, defaultLimit);
    var off := Offset(after).value;
    SliceJoin(tokens, off, off + |page.items|, off + |page.items| + |second.items|);
  }

  /** Adjacent slices join into one. */
  lemma SliceJoin<V>(s: seq<V>, i: int, j: int, k: int)
    requires 0 <= i <= j <= k <= |s|
    ensures s[i..j] + s[j..k] == s[i..k]
  {
  }

  /** A returned page is the slice of the values from the offset on, and its cursor is the slice's end. */
  lemma PageSlice<V>(tokens: seq<V>, after: string, limit: GoInt, defaultLimit: GoInt)
    requires Paginate(tokens, after, limit, defaultLimit).ListOk?
    ensures var page := Paginate(tokens, after, limit, defaultLimit);
      var off := Offset(after).value;
      && 0 <= off && off + |page.items| <= |tokens| && off + |page.items| <= MaxInt
      && page.items == tokens[off..off + |page.items|]
      && page.next == Itoa(off + |page.items|)
  {
    PaginateOk(tokens, after, limit, defaultLimit);
  }

  /**
   * The slice panics exactly for a negative offset, a negative limit, or an
   * offset + limit that overflows a 64-bit int, once the cursor has passed the
   * range check.
   */
  lemma PaginatePanics<V>(tokens: seq<V>, after: string, limit: GoInt, defaultLimit: GoInt)
    ensures Paginate(tokens, after, limit, defaultLimit) == ListPanic <==>
      Offset(after).Some? && 0 < |tokens| && Offset(after).value < |tokens| &&
      (Offset(after).value < 0 || limit < 0 || Offset(after).value + limit > MaxInt)
  {
    PaginateOk(tokens, after, limit, defaultLimit);
    if Offset(after).Some? && 0 <= Offset(after).value < |tokens| {
      var off := Offset(after).value;
      if limit < 0 {
        assert Add(off, limit) == off + limit;
      } else if off + limit > MaxInt {
        assert Add(off, limit) == off + limit - Modulus;
      }
    }
  }

  /**
   * Walking a store of n >= 1 values: a limit of n lists everything as the
   * last page; a limit of n - 1 under a default limit of n leaves one value,
   * which the cursor "n-1" then lists as the last page; the cursor "n" is out
   * of range.
   */
  lemma PagingWalkthrough<V>(tokens: seq<V>)
    requires 1 <= |tokens| <= MaxInt / 2
    ensures var n := |tokens|;
      && Paginate(tokens, "", n, n) == ListOk(tokens, Itoa(n), true)
      && Paginate(tokens, "", n - 1, n) == ListOk(tokens[..n - 1], Itoa(n - 1), false)
      && Paginate(tokens, Itoa(n - 1), n, n) == ListOk(tokens[n - 1..], Itoa(n), true)
      && Paginate(tokens, Itoa(n), 10, 10) == ListErr(InvalidAfter, false)
  {
    var n := |tokens|;
    assert Offset("") == Some(0);
    PaginateOk(tokens, "", n, n);
    assert tokens[0..n] == tokens;
    PaginateOk(tokens, "", n - 1, n);
    AtoiItoa(n - 1);
    assert Offset(Itoa(n - 1)) == Some(n - 1);
    PaginateOk(tokens, Itoa(n - 1), n, n);
    AtoiItoa(n);
    assert Offset(Itoa(n)) == Some(n);
    PaginateErrors(tokens, Itoa(n), 10, 10);
  }

  /**
   * The cursor "-1" parses, passes the range check of a non-empty store and
   * reaches the slice expression with a negative start, which panics.
   */
  lemma NegativeCursorPanics<V>(tokens: seq<V>, limit: GoInt, defaultLimit: GoInt)
    requires |tokens| > 0
    ensures Paginate(tokens, "-1", limit, defaultLimit) == ListPanic
  {
    AtoiMinusItoa(1);
    assert "-" + Itoa(1) == "-1";
    PaginatePanics(tokens, "-1", limit, defaultLimit);
  }

  /** The last-page flag can be set on a page that does not reach the end of the store. */
  lemma LastFlagBeforeEnd()
    ensures Paginate([1, 2, 3, 4, 5], "", 2, 100) == ListOk([1, 2], "2", true)
  {
  }

  /** The values of the given keys, in the given order. */
  function Values(db: map<string, Stored>, keys: seq<string>): (vs: seq<Stored>)
    requires forall k :: k in keys ==> k in db
    ensures |vs| == |keys|
    ensures forall i :: 0 <= i < |keys| ==> vs[i] == db[keys[i]]
  {
    seq(|keys|, i requires 0 <= i < |keys| => db[keys[i]])
  }

  /**
   * The second half of List: the range checks on the parsed cursor `zafter`,
   * then the slice `tokens[start:end]`, its cursor and its last-page flag.
   * This is the straight-line rendering of accesstoken.go lines 156-173, with
   * Go's early returns and variable updates; `Paginate` is the same rule as a
   * single expression, which the lemmas about paging are stated over.
   */
  method CutPage<V>(tokens: seq<V>, after: string, zafter: GoInt, limit: GoInt, defaultLimit: GoInt)
    returns (r: ListResult<V>)
    requires Offset(after) == Some(zafter)
    ensures r == Paginate(tokens, after, limit, defaultLimit)
  {
    var start, end := 0, |tokens|;
    if |tokens| == 0 {
      return ListErr(NoAccessToken, true);
    } else if |tokens| > zafter {
      start := zafter;
    } else {
      return ListErr(InvalidAfter, false);
    }
    var sum := Add(zafter, limit);
    if |tokens| > sum {
      end := sum;
    }
    var last := |tokens| == end || |tokens| < defaultLimit;
    if start < 0 || end < start {
      return ListPanic;
    }
    r := ListOk(tokens[start..end], Itoa(end), last);
  }

  /** The iterator loop of List: appends the value of each key in turn. */
  method ValuesAt(db: map<string, Stored>, keys: seq<string>) returns (tokens: seq<Stored>)
    requires forall k :: k in keys ==> k in db
    ensures tokens == Values(db, keys)
  {
    tokens := [];
    for i := 0 to |keys|
      invariant |tokens| == i
      invariant forall j :: 0 <= j < i ==> tokens[j] == db[keys[j]]
    {
      tokens := tokens + [db[keys[i]]];
    }
  }

  // ----------------------------------------------------------- the store itself

  class CredentialStore {
    /** The injected key-value store. */
    var db: map<string, Stored>
    /** The 32-byte one-way hash (SHA3-256). */
    const hash: Block -> Block

    constructor (db: map<string, Stored>, hash: Block -> Block)
      ensures this.db == db && this.hash == hash
    {
      this.db := db;
      this.hash := hash;
    }

    /**
     * Create(id, typ) with the random source's answer given as `filled` (the
     * bytes it produced) and `randErr` (whether it reported an error), and the
     * creation time `created`.
     */
    method Create(id: string, typ: string, filled: seq<byte>, randErr: bool, created: int)
      returns (issued: Option<string>, err: Option<Error>)
      modifies this
      ensures !ValidID(id) ==> issued == None && err == Some(BadID) && db == old(db)
      ensures ValidID(id) && Key(id) in old(db) ==>
        issued == None && err == Some(DuplicateID) && db == old(db)
      ensures ValidID(id) && Key(id) !in old(db) && (randErr || |filled| != TokenSize) ==>
        issued == None && err == (if randErr then Some(RandomSource) else None) && db == old(db)
      ensures issued.Some? <==> ValidID(id) && Key(id) !in old(db) && !randErr && |filled| == TokenSize
      ensures issued.Some? ==>
        && err == None
        && issued.value == IdHex(id, filled)
        && db == old(db)[Key(id) := Record(Token(id, IdHex(id, hash(filled)), typ, created))]
      ensures issued.Some? ==> Check(id, filled) == CheckResult(true, None)
    {
      if !ValidID(id) {
        return None, Some(BadID);
      }
      var k := Key(id);
      if k in db {
        return None, Some(DuplicateID);
      }
      if randErr || |filled| != TokenSize {
        return None, if randErr then Some(RandomSource) else None;
      }
      var secret: Block := filled;
      var hashedSecret := hash(secret);
      var token := Token(id, IdHex(id, hashedSecret), typ, created);
      db := db[k := Record(token)];
      FrameOfBlock(secret);
      issued, err := Some(IdHex(id, secret)), None;
    }

    /** Check(id, secret): whether the framed secret hashes to the digest stored under id. */
    function Check(id: string, secret: seq<byte>): (r: CheckResult)
      reads this
      ensures r.err == Some(BadID) <==> !ValidID(id)
      ensures ValidID(id) ==> (r.err == Some(NoMatchID) <==> Key(id) !in db)
      ensures ValidID(id) && Key(id) in db ==> (r.err == Some(Undecodable) <==> db[Key(id)].Garbled?)
      ensures ValidID(id) && Key(id) in db && db[Key(id)].Record? ==> r.err == None
      ensures r.valid ==> r.err == None
      ensures r.valid <==>
        ValidID(id) && Key(id) in db && db[Key(id)].Record? &&
        db[Key(id)].t.token == IdHex(id, hash(Frame(secret)))
    {
      if !ValidID(id) then CheckResult(false, Some(BadID))
      else
        var inToken := IdHex(id, hash(Frame(secret)));
        var k := Key(id);
        if k !in db then CheckResult(false, Some(NoMatchID))
        else match db[k]
          case Garbled(_) => CheckResult(false, Some(Undecodable))
          case Record(token) => CheckResult(token.token == inToken, None)
    }

    /**
     * List(after, limit, defaultLimit): collects every stored value in
     * iteration order, then cuts the page out of them.
     */
    method List(after: string, limit: GoInt, defaultLimit: GoInt) returns (r: ListResult<Stored>)
      ensures r == Paginate(Values(db, KeyOrder(db.Keys)), after, limit, defaultLimit)
    {
      var zafter: GoInt := 0;
      if after != "" {
        var parsed := Atoi(after);
        if parsed.None? {
          return ListErr(InvalidAfter, false);
        }
        zafter := parsed.value;
      }
      assert Offset(after) == Some(zafter);

      var tokens := Iterate();
      r := CutPage(tokens, after, zafter, limit, defaultLimit);
    }

    /** Reads every stored value, in the store's iteration order. */
    method Iterate() returns (tokens: seq<Stored>)
      ensures tokens == Values(db, KeyOrder(db.Keys))
    {
      var keys := SortedKeys(db);
      tokens := ValuesAt(db, keys);
    }

    /** Delete(id): removes the key of a valid id, whether or not it was stored. */
    method Delete(id: string) returns (err: Option<Error>)
      modifies this
      ensures !ValidID(id) ==> err == Some(BadID) && db == old(db)
      ensures ValidID(id) ==> err == None && db == old(db) - {Key(id)}
    {
      if !ValidID(id) {
        return Some(BadID);
      }
      var k := Key(id);
      db := db - {k};
      err := None;
    }
  }

  /**
   * Once Create has stored a token for id and secret, Check on that id never
   * errs and accepts exactly the secrets whose framing hashes like the
   * original: the stored digest compares equal iff the hashes are equal.
   */
  lemma CheckAgainstCreated(cs: CredentialStore, id: string, secret: Block, typ: string, created: int, other: seq<byte>)
    requires ValidID(id)
    requires Key(id) in cs.db
    requires cs.db[Key(id)] == Record(Token(id, IdHex(id, cs.hash(secret)), typ, created))
    ensures cs.Check(id, other) == CheckResult(cs.hash(Frame(other)) == cs.hash(secret), None)
  {
    IdHexInjective(id, cs.hash(secret), id, cs.hash(Frame(other)));
  }

  /** Deleting is idempotent, and the key of a deleted id is absent. */
  lemma DeleteTwice(db: map<string, Stored>, id: string)
    requires ValidID(id)
    ensures (db - {Key(id)}) - {Key(id)} == db - {Key(id)}
    ensures Key(id) !in db - {Key(id)}
  {
  }
}
