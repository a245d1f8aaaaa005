/** Encryption, hashing and masking of the individual identification number (IIN). */
module PiiCrypto {
  import opened Prelude

  /** The four fields of a stored value are joined by colons; these are the last three, in hex. */
  datatype Sealed = Sealed(iv: string, tag: string, data: string)

  /** AES-256-GCM and HMAC-SHA256 under the configured keys. `seal` draws its iv from a nonce. */
  datatype Crypto = Crypto(seal: (string, nat) -> Sealed, open: Sealed -> Option<string>, hmac: string -> string)

  datatype Error = InvalidFormat | DecryptionFailed

  /** All that is assumed: opening undoes sealing, hex has no colon, and a digest is not empty. */
  ghost predicate Sound(c: Crypto) {
    && (forall p, nonce :: c.open(c.seal(p, nonce)) == Some(p) && InHex(c.seal(p, nonce)))
    && (forall s :: c.hmac(s) != "")
  }

  predicate InHex(s: Sealed) {
    ':' !in s.iv && ':' !in s.tag && ':' !in s.data
  }

  const VERSION := "v1"

  predicate IsVersioned(s: string) {
    |s| >= 3 && s[..3] == "v1:"
  }

  /** `split(':')`. */
  function Split(s: string): (parts: seq<string>)
    ensures parts != []
  {
    if s == "" then [""]
    else if s[0] == ':' then [""] + Split(s[1..])
    else
      var rest := Split(s[1..]);
      [[s[0]] + rest[0]] + rest[1..]
  }

  function Stored(s: Sealed): string {
    VERSION + ":" + s.iv + ":" + s.tag + ":" + s.data
  }

  function EncryptPii(c: Crypto, plaintext: Option<string>, nonce: nat): Option<string> {
    if plaintext == None || plaintext.value == "" then None else Some(Stored(c.seal(plaintext.value, nonce)))
  }

  function DecryptPii(c: Crypto, ciphertext: Option<string>): Result<Option<string>, Error> {
    if ciphertext == None || ciphertext.value == "" then Ok(None)
    else if !IsVersioned(ciphertext.value) then Ok(ciphertext)
    else
      var parts := Split(ciphertext.value);
      if |parts| != 4 then Err(InvalidFormat)
      else
        match c.open(Sealed(parts[1], parts[2], parts[3]))
        case Some(plain) => Ok(Some(plain))
        case None => Err(DecryptionFailed)
  }

  function Trim(s: string): string {
    if s == "" then ""
    else if IsSpace(s[0]) then Trim(s[1..])
    else if IsSpace(s[|s| - 1]) then Trim(s[..|s| - 1])
    else s
  }

  function HashIin(c: Crypto, iin: Option<string>): Option<string> {
    if iin == None || iin.value == "" then None else Some(c.hmac(Trim(iin.value)))
  }

  function MaskIin(c: Crypto, iin: string): Result<Option<string>, Error> {
    if iin == "" then Ok(None)
    else if iin[0] == '*' then Ok(Some(iin))
    else
      match DecryptPii(c, Some(iin))
      case Err(e) => Err(e)
      case Ok(plain) =>
        if plain == None || plain.value == "" then Ok(None)
        else if |plain.value| >= 4 then Ok(Some("******" + plain.value[|plain.value| - 4..]))
        else Ok(Some("******"))
  }

  // ---------------------------------------------------------------- round trip

  lemma {:induction false} SplitFirst(a: string, rest: string)
    requires ':' !in a
    ensures Split(a + ":" + rest) == [a] + Split(rest)
  {
    var s := a + ":" + rest;
    if a == "" {
      assert s == ":" + rest;
      assert s[1..] == rest;
    } else {
      assert s[0] == a[0] && s[1..] == a[1..] + ":" + rest;
      assert forall ch :: ch in a[1..] ==> ch in a;
      SplitFirst(a[1..], rest);
      assert [a[0]] + a[1..] == a;
    }
  }

  lemma {:induction false} SplitLast(a: string)
    requires ':' !in a
    ensures Split(a) == [a]
  {
    if a != "" {
      assert forall ch :: ch in a[1..] ==> ch in a;
      SplitLast(a[1..]);
      assert [a[0]] + a[1..] == a;
    }
  }

  lemma StoredSplits(s: Sealed)
    requires InHex(s)
    ensures IsVersioned(Stored(s)) && Split(Stored(s)) == [VERSION, s.iv, s.tag, s.data]
  {
    var two := s.tag + ":" + s.data;
    var one := s.iv + ":" + two;
    assert Stored(s) == VERSION + ":" + one;
    assert Stored(s)[..3] == "v1:";
    SplitFirst(VERSION, one);
    SplitFirst(s.iv, two);
    SplitFirst(s.tag, s.data);
    SplitLast(s.data);
  }

  /** Decrypting what was encrypted gives it back; only null and the empty text are lost, to null. */
  lemma DecryptUndoesEncrypt(c: Crypto, plaintext: Option<string>, nonce: nat)
    requires Sound(c)
    ensures DecryptPii(c, EncryptPii(c, plaintext, nonce)) == Ok(if plaintext == Some("") then None else plaintext)
  {
    if plaintext.Some? && plaintext.value != "" {
      StoredSplits(c.seal(plaintext.value, nonce));
    }
  }

  /** How often a colon stands in a text. */
  function Colons(s: string): nat {
    if s == "" then 0 else Colons(s[1..]) + if s[0] == ':' then 1 else 0
  }

  lemma {:induction false} SplitCounts(s: string)
    ensures |Split(s)| == Colons(s) + 1
  {
    if s != "" {
      SplitCounts(s[1..]);
    }
  }

  /** What a stored value decrypts to: a text without the version mark to itself, one with the mark and three
      parts behind it to what they open to, and any other to an error. */
  lemma DecryptsTo(c: Crypto, value: string, s: Sealed)
    requires value != ""
    ensures !("v1:" <= value) ==> DecryptPii(c, Some(value)) == Ok(Some(value))
    ensures "v1:" <= value && Colons(value) != 3 ==> DecryptPii(c, Some(value)) == Err(InvalidFormat)
    ensures value == "v1:" + s.iv + ":" + s.tag + ":" + s.data && InHex(s) ==>
      DecryptPii(c, Some(value)) == if c.open(s) == None then Err(DecryptionFailed) else Ok(c.open(s))
  {
    assert "v1:" <= value <==> IsVersioned(value);
    SplitCounts(value);
    if InHex(s) {
      StoredSplits(s);
      assert "v1" + ":" == "v1:";
    }
  }

  /** Encrypting yields the version mark and the three parts, and nothing for nothing. */
  lemma EncryptsTo(c: Crypto, plaintext: string, nonce: nat)
    ensures EncryptPii(c, None, nonce) == None && EncryptPii(c, Some(""), nonce) == None
    ensures var s := c.seal(plaintext, nonce);
      plaintext != "" ==> EncryptPii(c, Some(plaintext), nonce) == Some("v1:" + s.iv + ":" + s.tag + ":" + s.data)
  {
    assert "v1" + ":" == "v1:";
  }

  // ---------------------------------------------------------------- hashes

  predicate AllBlank(s: string) {
    forall i :: 0 <= i < |s| ==> IsSpace(s[i])
  }

  lemma {:induction false} TrimmedIsBare(s: string)
    ensures Trim(s) != "" ==> !IsSpace(Trim(s)[0]) && !IsSpace(Trim(s)[|Trim(s)| - 1])
    decreases |s|
  {
    if s != "" {
      if IsSpace(s[0]) { TrimmedIsBare(s[1..]); } else if IsSpace(s[|s| - 1]) { TrimmedIsBare(s[..|s| - 1]); }
    }
  }

  predicate IsWrapped(s: string, before: string, core: string, after: string) {
    s == before + core + after && AllBlank(before) && AllBlank(after)
  }

  lemma WrapFront(s: string, before: string, core: string, after: string)
    requires s != "" && AllBlank([s[0]]) && IsWrapped(s[1..], before, core, after)
    ensures IsWrapped(s, [s[0]] + before, core, after)
  {
    assert s == [s[0]] + s[1..];
    AllBlankJoin([s[0]], before);
  }

  lemma WrapBack(s: string, before: string, core: string, after: string)
    requires s != "" && AllBlank([s[|s| - 1]]) && IsWrapped(s[..|s| - 1], before, core, after)
    ensures IsWrapped(s, before, core, after + [s[|s| - 1]])
  {
    assert s == s[..|s| - 1] + [s[|s| - 1]];
    AllBlankJoin(after, [s[|s| - 1]]);
  }

  lemma AllBlankJoin(a: string, b: string)
    requires AllBlank(a) && AllBlank(b)
    ensures AllBlank(a + b)
  {
    forall i | 0 <= i < |a + b| ensures IsSpace((a + b)[i]) {
      assert (a + b)[i] == if i < |a| then a[i] else b[i - |a|];
    }
  }

  /** Trimming takes away blanks at both ends, all of them, and nothing else. */
  lemma {:induction false} TrimTakesBlanks(s: string) returns (before: string, after: string)
    ensures IsWrapped(s, before, Trim(s), after)
    ensures Trim(s) != "" ==> !IsSpace(Trim(s)[0]) && !IsSpace(Trim(s)[|Trim(s)| - 1])
    decreases |s|
  {
    TrimmedIsBare(s);
    before, after := "", "";
    if s != "" {
      if IsSpace(s[0]) {
        before, after := TrimTakesBlanks(s[1..]);
        WrapFront(s, before, Trim(s), after);
        before := [s[0]] + before;
      } else if IsSpace(s[|s| - 1]) {
        before, after := TrimTakesBlanks(s[..|s| - 1]);
        WrapBack(s, before, Trim(s), after);
        after := after + [s[|s| - 1]];
      }
    }
  }

  /** The digest tells different texts apart: assumed where hashes stand for numbers. */
  ghost predicate IsInjective(c: Crypto) {
    forall x, y :: c.hmac(x) == c.hmac(y) ==> x == y
  }

  /** Two numbers have one hash exactly if they differ in nothing but blanks at their ends. */
  lemma HashesAgreeIff(c: Crypto, a: string, b: string)
    requires IsInjective(c) && a != "" && b != ""
    ensures HashIin(c, Some(a)) == Some(c.hmac(Trim(a)))
    ensures HashIin(c, Some(a)) == HashIin(c, Some(b)) <==> Trim(a) == Trim(b)
    ensures HashIin(c, None) == None && HashIin(c, Some("")) == None
  {
  }

  /** A text, decrypted first if it is encrypted, is masked to six asterisks and its last four characters, or six
      alone if it is shorter than four; an empty one to nothing, and one that is masked already stays. */
  lemma MasksTo(c: Crypto, iin: string)
    ensures iin == "" ==> MaskIin(c, iin) == Ok(None)
    ensures iin != "" && iin[0] == '*' ==> MaskIin(c, iin) == Ok(Some(iin))
    ensures iin != "" && iin[0] != '*' && !("v1:" <= iin) ==>
      MaskIin(c, iin) == Ok(Some("******" + if |iin| < 4 then "" else iin[|iin| - 4..]))
    ensures "v1:" <= iin ==>
      match DecryptPii(c, Some(iin))
      case Err(e) => MaskIin(c, iin) == Err(e)
      case Ok(plain) =>
        MaskIin(c, iin) ==
          if plain in {None, Some("")} then Ok(None)
          else Ok(Some("******" + if |plain.value| < 4 then "" else plain.value[|plain.value| - 4..]))
  {
    assert "v1:" <= iin <==> IsVersioned(iin);
    assert "******" + "" == "******";
  }

  /** An encrypted number is shown exactly as the plain one would be. */
  lemma MaskIgnoresEncryption(c: Crypto, iin: string, nonce: nat)
    requires Sound(c) && iin != "" && iin[0] != '*' && !IsVersioned(iin)
    ensures MaskIin(c, EncryptPii(c, Some(iin), nonce).value) == MaskIin(c, iin)
  {
    DecryptUndoesEncrypt(c, Some(iin), nonce);
    StoredSplits(c.seal(iin, nonce));
    assert Stored(c.seal(iin, nonce))[0] == Stored(c.seal(iin, nonce))[..3][0];
  }

  /** Of two plain numbers of four characters or more the masks agree exactly if the last four do. */
  lemma MaskShowsLastFour(c: Crypto, a: string, b: string)
    requires |a| >= 4 && |b| >= 4 && a[0] != '*' && b[0] != '*' && !IsVersioned(a) && !IsVersioned(b)
    ensures MaskIin(c, a) == MaskIin(c, b) <==> a[|a| - 4..] == b[|b| - 4..]
  {
    var (x, y) := (a[|a| - 4..], b[|b| - 4..]);
    assert ("******" + x)[6..] == x && ("******" + y)[6..] == y;
  }

  // ---------------------------------------------------------------- audit metadata

  /** `fields` in the order of `Object.entries`. */
  datatype Json =
    | Null | Bool(b: bool) | Number(n: real) | Str(s: string) | Arr(items: seq<Json>) | Obj(fields: seq<Field>)

  datatype Field = Field(key: string, value: Json)

  function Lower(c: char): char {
    if 'A' <= c <= 'Z' then (c as int + 32) as char else c
  }

  /** `key.toLowerCase().includes('iin')`: no character but the ASCII letters lower-cases into "iin". */
  predicate NamesIin(key: string) {
    exists k :: 0 <= k <= |key| - 3 && Lower(key[k]) == 'i' && Lower(key[k + 1]) == 'i' && Lower(key[k + 2]) == 'n'
  }

  function Decimal(n: nat): string {
    (if n < 10 then "" else Decimal(n / 10)) + [(n % 10 + '0' as int) as char]
  }

  predicate IsObject(j: Json) {
    j.Obj? || j.Arr?
  }

  /** `Object.entries` of an object, or of an array, whose keys are its indices. */
  function Entry(j: Json, i: nat): Field
    requires IsObject(j) && i < Size(j)
  {
    if j.Obj? then j.fields[i] else Field(Decimal(i), j.items[i])
  }

  function Size(j: Json): nat
    requires IsObject(j)
  {
    if j.Obj? then |j.fields| else |j.items|
  }

  function Sanitize(c: Crypto, j: Json): Result<Json, Error>
    decreases j, 2, 0
  {
    if !IsObject(j) then Ok(j)
    else
      match SanitizeEntries(c, j, Size(j))
      case Ok(fields) => Ok(Obj(fields))
      case Err(e) => Err(e)
  }

  function SanitizeEntries(c: Crypto, j: Json, n: nat): (r: Result<seq<Field>, Error>)
    requires IsObject(j) && n <= Size(j)
    ensures r.Ok? ==> |r.value| == n
    decreases j, 1, n
  {
    if n == 0 then Ok([])
    else
      match SanitizeEntries(c, j, n - 1)
      case Err(e) => Err(e)
      case Ok(done) =>
        var entry := Entry(j, n - 1);
        match SanitizeValue(c, entry.key, entry.value)
        case Err(e) => Err(e)
        case Ok(v) => Ok(done + [Field(entry.key, v)])
  }

  function SanitizeValue(c: Crypto, key: string, v: Json): Result<Json, Error>
    decreases v, 3, 0
  {
    if NamesIin(key) then
      if !v.Str? then Ok(Str("******"))
      else
        match MaskIin(c, v.s)
        case Err(e) => Err(e)
        case Ok(None) => Ok(Null)
        case Ok(Some(masked)) => Ok(Str(masked))
    else if v.Obj? then Sanitize(c, v)
    else if v.Arr? then
      match SanitizeItems(c, v, |v.items|)
      case Ok(items) => Ok(Arr(items))
      case Err(e) => Err(e)
    else Ok(v)
  }

  function SanitizeItems(c: Crypto, j: Json, n: nat): (r: Result<seq<Json>, Error>)
    requires j.Arr? && n <= |j.items|
    ensures r.Ok? ==> |r.value| == n
    decreases j, 1, n
  {
    if n == 0 then Ok([])
    else
      match SanitizeItems(c, j, n - 1)
      case Err(e) => Err(e)
      case Ok(done) =>
        match Sanitize(c, j.items[n - 1])
        case Err(e) => Err(e)
        case Ok(v) => Ok(done + [v])
  }

  method SanitizeAuditMetadata(c: Crypto, j: Json) returns (r: Result<Json, Error>)
    ensures r == Sanitize(c, j)
    decreases j
  {
    if !IsObject(j) { return Ok(j); }
    var sanitized := [];
    for i := 0 to Size(j)
      invariant SanitizeEntries(c, j, i) == Ok(sanitized)
    {
      var entry := Entry(j, i);
      var v := entry.value;
      ghost var expected := SanitizeValue(c, entry.key, v);
      if !NamesIin(entry.key) && v.Obj? {
        var inner := SanitizeAuditMetadata(c, v);
        if inner.Err? {
          FailureStays(c, j, i + 1, Size(j));
          return inner;
        }
        v := inner.value;
      } else if !NamesIin(entry.key) && v.Arr? {
        var items := SanitizeArray(c, v);
        if items.Err? {
          FailureStays(c, j, i + 1, Size(j));
          return Err(items.error);
        }
        v := Arr(items.value);
      } else {
        var leaf := SanitizeValue(c, entry.key, v);
        if leaf.Err? {
          FailureStays(c, j, i + 1, Size(j));
          return leaf;
        }
        v := leaf.value;
      }
      assert expected == Ok(v);
      sanitized := sanitized + [Field(entry.key, v)];
    }
    return Ok(Obj(sanitized));
  }

  method SanitizeArray(c: Crypto, j: Json) returns (r: Result<seq<Json>, Error>)
    requires j.Arr?
    ensures r == SanitizeItems(c, j, |j.items|)
    decreases j, 0
  {
    var done := [];
    for i := 0 to |j.items|
      invariant SanitizeItems(c, j, i) == Ok(done)
    {
      var item := SanitizeAuditMetadata(c, j.items[i]);
      if item.Err? {
        ItemFailureStays(c, j, i + 1, |j.items|);
        return Err(item.error);
      }
      done := done + [item.value];
    }
    return Ok(done);
  }

  lemma {:induction false} FailureStays(c: Crypto, j: Json, n: nat, m: nat)
    requires IsObject(j) && n <= m <= Size(j) && SanitizeEntries(c, j, n).Err?
    ensures SanitizeEntries(c, j, m) == SanitizeEntries(c, j, n)
    decreases m
  {
    if n < m {
      FailureStays(c, j, n, m - 1);
    }
  }

  lemma {:induction false} ItemFailureStays(c: Crypto, j: Json, n: nat, m: nat)
    requires j.Arr? && n <= m <= |j.items| && SanitizeItems(c, j, n).Err?
    ensures SanitizeItems(c, j, m) == SanitizeItems(c, j, n)
    decreases m
  {
    if n < m {
      ItemFailureStays(c, j, n, m - 1);
    }
  }

  // ---------------------------------------------------------------- what sanitizing guarantees

  predicate Masked(j: Json) {
    j.Null? || (j.Str? && |j.s| > 0 && j.s[0] == '*')
  }

  /** At every depth a key that names an IIN holds only null or a masked text. */
  predicate Clean(j: Json) {
    match j
    case Obj(fields) => forall i :: 0 <= i < |fields| ==>
      (NamesIin(fields[i].key) ==> Masked(fields[i].value)) && Clean(fields[i].value)
    case Arr(items) => forall i :: 0 <= i < |items| ==> Clean(items[i])
    case _ => true
  }

  predicate CleanField(f: Field) {
    (NamesIin(f.key) ==> Masked(f.value)) && Clean(f.value)
  }

  lemma {:induction false} SanitizedIsClean(c: Crypto, j: Json)
    ensures Sanitize(c, j).Ok? ==> Clean(Sanitize(c, j).value)
    decreases j, 2, 0
  {
    if IsObject(j) {
      EntriesAreClean(c, j, Size(j));
    }
  }

  lemma {:induction false} EntriesAreClean(c: Crypto, j: Json, n: nat)
    requires IsObject(j) && n <= Size(j)
    ensures var r := SanitizeEntries(c, j, n); r.Ok? ==> forall i :: 0 <= i < n ==> CleanField(r.value[i])
    decreases j, 1, n
  {
    if n > 0 {
      EntriesAreClean(c, j, n - 1);
      ValueIsClean(c, Entry(j, n - 1).key, Entry(j, n - 1).value);
    }
  }

  lemma {:induction false} ValueIsClean(c: Crypto, key: string, v: Json)
    ensures var r := SanitizeValue(c, key, v); r.Ok? ==> CleanField(Field(key, r.value))
    decreases v, 3, 0
  {
    if !NamesIin(key) {
      if v.Obj? {
        SanitizedIsClean(c, v);
      } else if v.Arr? {
        ItemsAreClean(c, v, |v.items|);
      }
    }
  }

  lemma {:induction false} ItemsAreClean(c: Crypto, j: Json, n: nat)
    requires j.Arr? && n <= |j.items|
    ensures var r := SanitizeItems(c, j, n); r.Ok? ==> forall i :: 0 <= i < n ==> Clean(r.value[i])
    decreases j, 1, n
  {
    if n > 0 {
      ItemsAreClean(c, j, n - 1);
      SanitizedIsClean(c, j.items[n - 1]);
    }
  }

  /** The tree without what stands under keys that name an IIN. As in sanitizing, an array in an array
      counts as an object keyed by index. */
  function Erase(j: Json): Json
    decreases j, 2, 0
  {
    if IsObject(j) then Obj(EraseEntries(j, Size(j))) else j
  }

  function EraseEntries(j: Json, n: nat): (r: seq<Field>)
    requires IsObject(j) && n <= Size(j)
    ensures |r| == n
    decreases j, 1, n
  {
    if n == 0 then []
    else EraseEntries(j, n - 1) + [Field(Entry(j, n - 1).key, EraseValue(Entry(j, n - 1).key, Entry(j, n - 1).value))]
  }

  function EraseValue(key: string, v: Json): Json
    decreases v, 3, 0
  {
    if NamesIin(key) then Null else if v.Obj? then Erase(v) else if v.Arr? then Arr(EraseItems(v, |v.items|)) else v
  }

  function EraseItems(j: Json, n: nat): (r: seq<Json>)
    requires j.Arr? && n <= |j.items|
    ensures |r| == n
    decreases j, 1, n
  {
    if n == 0 then [] else EraseItems(j, n - 1) + [Erase(j.items[n - 1])]
  }

  lemma {:induction false} ErasePrefix(a: seq<Field>, b: seq<Field>, n: nat)
    requires n <= |a| && n <= |b| && forall i :: 0 <= i < n ==> a[i] == b[i]
    ensures EraseEntries(Obj(a), n) == EraseEntries(Obj(b), n)
  {
    if n > 0 {
      ErasePrefix(a, b, n - 1);
    }
  }

  lemma {:induction false} EraseItemsPrefix(a: seq<Json>, b: seq<Json>, n: nat)
    requires n <= |a| && n <= |b| && forall i :: 0 <= i < n ==> a[i] == b[i]
    ensures EraseItems(Arr(a), n) == EraseItems(Arr(b), n)
  {
    if n > 0 {
      EraseItemsPrefix(a, b, n - 1);
    }
  }

  /** Sanitizing changes nothing but what stands under keys that name an IIN. */
  lemma {:induction false} SanitizedKeepsTheRest(c: Crypto, j: Json)
    ensures Sanitize(c, j).Ok? ==> Erase(Sanitize(c, j).value) == Erase(j)
    decreases j, 2, 0
  {
    if IsObject(j) {
      EntriesKeepTheRest(c, j, Size(j));
    }
  }

  lemma {:induction false} EntriesKeepTheRest(c: Crypto, j: Json, n: nat)
    requires IsObject(j) && n <= Size(j)
    ensures var r := SanitizeEntries(c, j, n); r.Ok? ==> EraseEntries(Obj(r.value), n) == EraseEntries(j, n)
    decreases j, 1, n
  {
    var r := SanitizeEntries(c, j, n);
    if n > 0 && r.Ok? {
      var before := SanitizeEntries(c, j, n - 1).value;
      EntriesKeepTheRest(c, j, n - 1);
      ErasePrefix(r.value, before, n - 1);
      ValueKeepsTheRest(c, Entry(j, n - 1).key, Entry(j, n - 1).value);
    }
  }

  lemma {:induction false} ValueKeepsTheRest(c: Crypto, key: string, v: Json)
    ensures var r := SanitizeValue(c, key, v); r.Ok? ==> EraseValue(key, r.value) == EraseValue(key, v)
    decreases v, 3, 0
  {
    if !NamesIin(key) {
      if v.Obj? {
        SanitizedKeepsTheRest(c, v);
      } else if v.Arr? {
        ItemsKeepTheRest(c, v, |v.items|);
      }
    }
  }

  lemma {:induction false} ItemsKeepTheRest(c: Crypto, j: Json, n: nat)
    requires j.Arr? && n <= |j.items|
    ensures var r := SanitizeItems(c, j, n); r.Ok? ==> EraseItems(Arr(r.value), n) == EraseItems(j, n)
    decreases j, 1, n
  {
    var r := SanitizeItems(c, j, n);
    if n > 0 && r.Ok? {
      var before := SanitizeItems(c, j, n - 1).value;
      ItemsKeepTheRest(c, j, n - 1);
      EraseItemsPrefix(r.value, before, n - 1);
      SanitizedKeepsTheRest(c, j.items[n - 1]);
    }
  }

  /** The number a text of digits stands for. */
  function ValueOf(digits: string): int {
    if digits == "" then 0 else 10 * ValueOf(digits[..|digits| - 1]) + (digits[|digits| - 1] as int - 48)
  }

  /** The keys of an array are its indices in decimal, without leading zeros. */
  lemma {:induction false} DecimalIs(n: nat)
    ensures ValueOf(Decimal(n)) == n && Decimal(n) != "" && (n > 0 ==> Decimal(n)[0] != '0')
    ensures forall i :: 0 <= i < |Decimal(n)| ==> '0' <= Decimal(n)[i] <= '9'
  {
    var front := if n < 10 then "" else Decimal(n / 10);
    if n >= 10 {
      DecimalIs(n / 10);
    }
    DigitIs(n % 10);
    var last := (n % 10 + '0' as int) as char;
    assert Decimal(n) == front + [last];
    OneMoreDigit(front, last);
  }

  lemma DigitIs(d: nat)
    requires d < 10
    ensures var c := (d + '0' as int) as char; '0' <= c <= '9' && c as int - 48 == d
  {
  }

  lemma OneMoreDigit(front: string, last: char)
    ensures ValueOf(front + [last]) == 10 * ValueOf(front) + (last as int - 48)
  {
    assert (front + [last])[..|front|] == front;
  }

  /** The three letters stand there, in any case. */
  predicate SpellsIin(key: string, k: int) {
    0 <= k <= |key| - 3 && key[k] in {'i', 'I'} && key[k + 1] in {'i', 'I'} && key[k + 2] in {'n', 'N'}
  }

  lemma LowerIs(c: char)
    ensures Lower(c) == 'i' <==> c in {'i', 'I'}
    ensures Lower(c) == 'n' <==> c in {'n', 'N'}
  {
  }

  /** A key names an IIN exactly if the three letters stand in it one after the other. */
  lemma NamesIinIff(key: string)
    ensures NamesIin(key) <==> exists k :: SpellsIin(key, k)
  {
    if NamesIin(key) {
      var k :| 0 <= k <= |key| - 3 && Lower(key[k]) == 'i' && Lower(key[k + 1]) == 'i' && Lower(key[k + 2]) == 'n';
      LowerIs(key[k]);
      LowerIs(key[k + 1]);
      LowerIs(key[k + 2]);
      assert SpellsIin(key, k);
    }
    if exists k :: SpellsIin(key, k) {
      var k :| SpellsIin(key, k);
      LowerIs(key[k]);
      LowerIs(key[k + 1]);
      LowerIs(key[k + 2]);
    }
  }

  lemma {:induction false} EntryIsValue(c: Crypto, j: Json, n: nat, i: nat)
    requires IsObject(j) && i < n <= Size(j) && SanitizeEntries(c, j, n).Ok?
    ensures var (r, e) := (SanitizeEntries(c, j, n).value, Entry(j, i));
      SanitizeValue(c, e.key, e.value) == Ok(r[i].value) && r[i].key == e.key
  {
    if i < n - 1 {
      EntryIsValue(c, j, n - 1, i);
    }
  }

  lemma {:induction false} ItemIsSanitized(c: Crypto, j: Json, n: nat, i: nat)
    requires j.Arr? && i < n <= |j.items| && SanitizeItems(c, j, n).Ok?
    ensures Sanitize(c, j.items[i]) == Ok(SanitizeItems(c, j, n).value[i])
  {
    if i < n - 1 {
      ItemIsSanitized(c, j, n - 1, i);
    }
  }

  /** What becomes of an entry, at any depth, since what stands inside it is sanitized alike: under a key that names
      an IIN a text gives way to its mask and anything else to six asterisks; under another key an object and the
      elements of an array are sanitized, and anything else stays. */
  predicate IsSanitized(c: Crypto, key: string, before: Json, after: Json) {
    if NamesIin(key) then
      match before
      case Str(s) => MaskIin(c, s) == Ok(if after.Str? then Some(after.s) else None) && (after.Str? || after.Null?)
      case _ => after == Str("******")
    else
      match before
      case Obj(_) => Sanitize(c, before) == Ok(after)
      case Arr(items) =>
        && after.Arr? && |after.items| == |items|
        && forall i :: 0 <= i < |items| ==> Sanitize(c, items[i]) == Ok(after.items[i])
      case _ => after == before
  }

  lemma EntriesAreSanitized(c: Crypto, j: Json)
    requires IsObject(j) && Sanitize(c, j).Ok?
    ensures var r := Sanitize(c, j).value;
      && r.Obj? && |r.fields| == Size(j)
      && forall i :: 0 <= i < Size(j) ==>
           r.fields[i].key == Entry(j, i).key && IsSanitized(c, r.fields[i].key, Entry(j, i).value, r.fields[i].value)
  {
    var r := Sanitize(c, j).value;
    forall i | 0 <= i < Size(j)
      ensures r.fields[i].key == Entry(j, i).key
      ensures IsSanitized(c, r.fields[i].key, Entry(j, i).value, r.fields[i].value)
    {
      var before := Entry(j, i).value;
      EntryIsValue(c, j, Size(j), i);
      if before.Arr? && !NamesIin(Entry(j, i).key) {
        forall k | 0 <= k < |before.items| ensures Sanitize(c, before.items[k]) == Ok(r.fields[i].value.items[k]) {
          ItemIsSanitized(c, before, |before.items|, k);
        }
      }
    }
  }

  /** What is neither an object nor an array stays. */
  lemma LeavesStay(c: Crypto, j: Json)
    ensures !j.Obj? && !j.Arr? ==> Sanitize(c, j) == Ok(j)
  {
  }
}

/** The one-off migration that encrypts the IINs already stored. */
module PiiMigration {
  import opened Prelude
  import opened PiiCrypto

  datatype User = User(name: string, iin: Option<string>, iinHash: Option<string>)

  /** What stops the loop: a number that cannot be decrypted, or the unique index on `iinHash`. */
  datatype Failure = Undecryptable(error: Error) | DuplicateHash

  /** The users table and the counters while migrating. */
  datatype Progress = Progress(users: seq<User>, encrypted: nat, skipped: nat, error: Option<Failure>)

  /** `!value` for a text that may be null. */
  predicate Falsy(value: Option<string>) {
    value == None || value.value == ""
  }

  function Migrate(c: Crypto, user: User, nonce: nat): Result<Option<User>, Error> {
    if Falsy(user.iin) then Ok(None)
    else if !IsVersioned(user.iin.value) then
      Ok(Some(user.(iin := EncryptPii(c, user.iin, nonce), iinHash := HashIin(c, user.iin))))
    else if !Falsy(user.iinHash) then Ok(None)
    else
      match DecryptPii(c, user.iin)
      case Err(e) => Err(e)
      case Ok(plain) => Ok(Some(user.(iinHash := if Falsy(plain) then None else HashIin(c, plain))))
  }

  /** Another row has this hash already; nulls do not count. */
  predicate Clashes(users: seq<User>, i: nat, hash: Option<string>) {
    hash.Some? && exists j :: 0 <= j < |users| && j != i && users[j].iinHash == hash
  }

  /** Writing row `i` back, against the unique index. */
  function Update(p: Progress, i: nat, user: User): Progress
    requires i < |p.users|
  {
    if Clashes(p.users, i, user.iinHash) then p.(error := Some(DuplicateHash))
    else p.(users := p.users[i := user], encrypted := p.encrypted + 1)
  }

  /** One row: those without an IIN are not in the query. */
  function Advance(c: Crypto, p: Progress, i: nat, nonce: nat): Progress
    requires i < |p.users|
  {
    if p.error.Some? || p.users[i].iin == None then p
    else
      match Migrate(c, p.users[i], nonce)
      case Err(e) => p.(error := Some(Undecryptable(e)))
      case Ok(None) => p.(skipped := p.skipped + 1)
      case Ok(Some(user)) => Update(p, i, user)
  }

  /** The first `n` rows; row `i` is encrypted with the nonce `nonces(i)`. */
  function Migrated(c: Crypto, users: seq<User>, nonces: nat -> nat, n: nat): (p: Progress)
    requires n <= |users|
    ensures |p.users| == |users|
  {
    if n == 0 then Progress(users, 0, 0, None) else Advance(c, Migrated(c, users, nonces, n - 1), n - 1, nonces(n - 1))
  }

  function WithIin(users: seq<User>, n: nat): nat
    requires n <= |users|
  {
    if n == 0 then 0 else WithIin(users, n - 1) + if users[n - 1].iin.Some? then 1 else 0
  }

  datatype MigrationResult = MigrationResult(total: nat, encrypted: nat, skipped: nat)

  class Migration {
    var users: seq<User>

    constructor (users: seq<User>)
      ensures this.users == users
    {
      this.users := users;
    }

    method EncryptExistingIin(c: Crypto, nonces: nat -> nat) returns (result: Result<MigrationResult, Failure>)
      modifies this
      ensures var p := Migrated(c, old(users), nonces, |old(users)|);
        && users == p.users
        && result == match p.error
                     case None => Ok(MigrationResult(WithIin(old(users), |old(users)|), p.encrypted, p.skipped))
                     case Some(e) => Err(e)
    {
      var p := MigrateRows(c, users, nonces);
      var total := WithIin(users, |users|);
      users := p.users;
      match p.error
      case None => return Ok(MigrationResult(total, p.encrypted, p.skipped));
      case Some(e) => return Err(e);
    }
  }

  /** The loop over the rows read at the start; each row is written back before the next. */
  method MigrateRows(c: Crypto, rows: seq<User>, nonces: nat -> nat) returns (p: Progress)
    ensures p == Migrated(c, rows, nonces, |rows|)
  {
    p := Progress(rows, 0, 0, None);
    for i := 0 to |rows|
      invariant p == Migrated(c, rows, nonces, i) && p.error == None
      invariant forall k :: i <= k < |rows| ==> p.users[k] == rows[k]
    {
      var user := rows[i];
      if user.iin.Some? {
        var isAlreadyEncrypted := user.iin.value != "" && IsVersioned(user.iin.value);
        if user.iin.value == "" || (isAlreadyEncrypted && !Falsy(user.iinHash)) {
          p := p.(skipped := p.skipped + 1);
        } else if isAlreadyEncrypted {
          var plain := DecryptPii(c, user.iin);
          if plain.Err? {
            p := p.(error := Some(Undecryptable(plain.error)));
            ErrorStays(c, rows, nonces, i + 1, |rows|);
            return;
          }
          var hash := if Falsy(plain.value) then None else HashIin(c, plain.value);
          p := Update(p, i, user.(iinHash := hash));
        } else {
          var sealed, hash := EncryptPii(c, user.iin, nonces(i)), HashIin(c, user.iin);
          p := Update(p, i, user.(iin := sealed, iinHash := hash));
        }
        if p.error.Some? {
          ErrorStays(c, rows, nonces, i + 1, |rows|);
          return;
        }
      }
    }
  }

  lemma {:induction false} ErrorStays(c: Crypto, users: seq<User>, nonces: nat -> nat, n: nat, m: nat)
    requires n <= m <= |users| && Migrated(c, users, nonces, n).error.Some?
    ensures Migrated(c, users, nonces, m) == Migrated(c, users, nonces, n)
  {
    if n < m {
      ErrorStays(c, users, nonces, n, m - 1);
    }
  }

  // ---------------------------------------------------------------- what migrating guarantees

  /** A row as migrating leaves it: the same name and number, and the number's hash if it was touched. */
  predicate Kept(c: Crypto, before: User, after: User) {
    && after.name == before.name
    && DecryptPii(c, after.iin) == DecryptPii(c, before.iin)
    && (after != before ==>
      DecryptPii(c, before.iin).Ok? && after.iinHash == HashIin(c, DecryptPii(c, before.iin).value))
  }

  lemma MigrateKeeps(c: Crypto, user: User, nonce: nat)
    requires Sound(c) && Migrate(c, user, nonce).Ok? && Migrate(c, user, nonce).value.Some?
    ensures var after := Migrate(c, user, nonce).value.value;
      && Kept(c, user, after) && after.iinHash == HashIin(c, DecryptPii(c, user.iin).value)
      && after.iin.Some? && after.iin.value != "" && IsVersioned(after.iin.value)
  {
    if !IsVersioned(user.iin.value) {
      DecryptUndoesEncrypt(c, user.iin, nonce);
      StoredSplits(c.seal(user.iin.value, nonce));
    }
  }

  lemma AdvanceKeeps(c: Crypto, p: Progress, i: nat, nonce: nat, k: nat)
    requires Sound(c) && i < |p.users| && k < |p.users|
    ensures var next := Advance(c, p, i, nonce);
      |next.users| == |p.users| && if k == i then Kept(c, p.users[k], next.users[k]) else next.users[k] == p.users[k]
  {
    if Migrate(c, p.users[i], nonce).Ok? && Migrate(c, p.users[i], nonce).value.Some? {
      MigrateKeeps(c, p.users[i], nonce);
    }
  }

  /** Even when an undecryptable row stops it halfway, migrating never changes anyone's number, and every
      row it touched has the hash of that number. */
  lemma {:induction false} MigrationKeepsNumbers(c: Crypto, users: seq<User>, nonces: nat -> nat, n: nat)
    requires Sound(c) && n <= |users|
    ensures var p := Migrated(c, users, nonces, n);
      && (forall i :: 0 <= i < n ==> Kept(c, users[i], p.users[i]))
      && (forall i :: n <= i < |users| ==> p.users[i] == users[i])
  {
    if n > 0 {
      MigrationKeepsNumbers(c, users, nonces, n - 1);
      var (before, p) := (Migrated(c, users, nonces, n - 1), Migrated(c, users, nonces, n));
      forall i | 0 <= i < |users|
        ensures if i == n - 1 then Kept(c, before.users[i], p.users[i]) else p.users[i] == before.users[i]
      {
        AdvanceKeeps(c, before, n - 1, nonces(n - 1), i);
      }
    }
  }

  /** Every row the query found was either encrypted or skipped, unless an error stopped the loop. */
  lemma {:induction false} TotalIsEncryptedAndSkipped(c: Crypto, users: seq<User>, nonces: nat -> nat, n: nat)
    requires Sound(c) && n <= |users| && Migrated(c, users, nonces, n).error == None
    ensures Migrated(c, users, nonces, n).encrypted + Migrated(c, users, nonces, n).skipped == WithIin(users, n)
  {
    if n > 0 {
      TotalIsEncryptedAndSkipped(c, users, nonces, n - 1);
      MigrationKeepsNumbers(c, users, nonces, n - 1);
    }
  }

  /** How many of the first `n` rows are written back: those in plain, and those encrypted without a hash. */
  function Unprotected(users: seq<User>, n: nat): nat
    requires n <= |users|
  {
    if n == 0 then 0
    else
      Unprotected(users, n - 1) +
      match users[n - 1].iin
      case None => 0
      case Some(iin) => if iin != "" && (!("v1:" <= iin) || users[n - 1].iinHash in {None, Some("")}) then 1 else 0
  }

  /** A run that was not stopped reports exactly those as encrypted. */
  lemma {:induction false} EncryptedAreUnprotected(c: Crypto, users: seq<User>, nonces: nat -> nat, n: nat)
    requires Sound(c) && n <= |users| && Migrated(c, users, nonces, n).error == None
    ensures Migrated(c, users, nonces, n).encrypted == Unprotected(users, n)
  {
    if n > 0 {
      EncryptedAreUnprotected(c, users, nonces, n - 1);
      MigrationKeepsNumbers(c, users, nonces, n - 1);
      assert users[n - 1].iin.Some? ==> ("v1:" <= users[n - 1].iin.value <==> IsVersioned(users[n - 1].iin.value));
    }
  }

  // ---------------------------------------------------------------- the unique index

  ghost predicate HashesAreUnique(users: seq<User>) {
    forall i, j :: 0 <= i < j < |users| && users[i].iinHash.Some? ==> users[i].iinHash != users[j].iinHash
  }

  /** Whether or not it finishes, migrating leaves no two rows with one hash. */
  lemma {:induction false} HashesStayUnique(c: Crypto, users: seq<User>, nonces: nat -> nat, n: nat)
    requires n <= |users| && HashesAreUnique(users)
    ensures HashesAreUnique(Migrated(c, users, nonces, n).users)
  {
    if n > 0 {
      HashesStayUnique(c, users, nonces, n - 1);
    }
  }

  /** The row is in the query and is to be written back. */
  predicate ToWrite(c: Crypto, user: User) {
    user.iin.Some? && Migrate(c, user, 0).Ok? && Migrate(c, user, 0).value.Some?
  }

  /** The hash a finished run leaves in a row; it does not depend on the nonce. */
  function HashAfter(c: Crypto, user: User): Option<string> {
    if ToWrite(c, user) then Migrate(c, user, 0).value.value.iinHash else user.iinHash
  }

  /** Row `i` of the table as it was at the start can be read, and no row before it will have, and none
      after it has already, the hash it gets. */
  ghost predicate Passes(c: Crypto, users: seq<User>, i: nat)
    requires i < |users|
  {
    && (users[i].iin.Some? ==> Migrate(c, users[i], 0).Ok?)
    && (ToWrite(c, users[i]) && HashAfter(c, users[i]).Some? ==>
          forall j :: 0 <= j < |users| && j != i ==>
            (if j < i then HashAfter(c, users[j]) else users[j].iinHash) != HashAfter(c, users[i]))
  }

  /** The hashes in the table after `n` rows. */
  lemma HashesAfter(c: Crypto, users: seq<User>, nonces: nat -> nat, n: nat, j: nat)
    requires Sound(c) && n <= |users| && j < |users| && Migrated(c, users, nonces, n).error == None
    ensures Migrated(c, users, nonces, n).users[j].iinHash == if j < n then HashAfter(c, users[j]) else users[j].iinHash
  {
    MigrationKeepsNumbers(c, users, nonces, n);
    if j < n {
      MigratedRow(c, users, nonces, n, j);
    }
  }

  /** When the loop gets through: the code finishes if and only if every row passes. */
  lemma {:induction false} FinishesIff(c: Crypto, users: seq<User>, nonces: nat -> nat, n: nat)
    requires Sound(c) && n <= |users|
    ensures Migrated(c, users, nonces, n).error == None <==> forall i :: 0 <= i < n ==> Passes(c, users, i)
  {
    if n > 0 {
      FinishesIff(c, users, nonces, n - 1);
      if Migrated(c, users, nonces, n - 1).error == None {
        RowPassesIff(c, users, nonces, n - 1);
      }
    }
  }

  lemma RowPassesIff(c: Crypto, users: seq<User>, nonces: nat -> nat, i: nat)
    requires Sound(c) && i < |users| && Migrated(c, users, nonces, i).error == None
    ensures Migrated(c, users, nonces, i + 1).error == None <==> Passes(c, users, i)
  {
    var before := Migrated(c, users, nonces, i);
    MigrationKeepsNumbers(c, users, nonces, i);
    forall j | 0 <= j < |users|
      ensures before.users[j].iinHash == if j < i then HashAfter(c, users[j]) else users[j].iinHash
    {
      HashesAfter(c, users, nonces, i, j);
    }
  }

  /** The hash of the number a row holds, encrypted or not. */
  function NumberHash(c: Crypto, user: User): Option<string> {
    match DecryptPii(c, user.iin)
    case Ok(number) => HashIin(c, number)
    case Err(_) => None
  }

  /** Every hash in the table is the hash of its row's number. */
  ghost predicate HashesAreTrue(c: Crypto, users: seq<User>) {
    forall i :: 0 <= i < |users| && users[i].iinHash.Some? ==>
      DecryptPii(c, users[i].iin).Ok? && users[i].iinHash == NumberHash(c, users[i])
  }

  predicate AllReadable(c: Crypto, users: seq<User>) {
    forall i :: 0 <= i < |users| ==> DecryptPii(c, users[i].iin).Ok?
  }

  ghost predicate HashesDiffer(c: Crypto, users: seq<User>) {
    forall i, j :: 0 <= i < j < |users| && NumberHash(c, users[i]).Some? ==>
      NumberHash(c, users[i]) != NumberHash(c, users[j])
  }

  /** The number a row holds, encrypted or not, without blanks around it; None if it cannot be decrypted. */
  function NumberOf(c: Crypto, user: User): Option<string> {
    match DecryptPii(c, user.iin)
    case Ok(Some(number)) => if number == "" then None else Some(Trim(number))
    case _ => None
  }

  ghost predicate NumbersDiffer(c: Crypto, users: seq<User>) {
    forall i, j :: 0 <= i < j < |users| && NumberOf(c, users[i]).Some? ==>
      NumberOf(c, users[i]) != NumberOf(c, users[j])
  }

  lemma NumbersAreHashes(c: Crypto, a: User, b: User)
    requires IsInjective(c)
    ensures NumberHash(c, a).Some? <==> NumberOf(c, a).Some?
    ensures NumberHash(c, a).Some? ==> (NumberHash(c, a) == NumberHash(c, b) <==> NumberOf(c, a) == NumberOf(c, b))
  {
    if NumberOf(c, a).Some? && NumberOf(c, b).Some? {
      HashesAgreeIff(c, DecryptPii(c, a.iin).value.value, DecryptPii(c, b.iin).value.value);
    }
  }

  lemma RowGetsItsHash(c: Crypto, users: seq<User>, i: nat)
    requires Sound(c) && HashesAreTrue(c, users) && i < |users|
    ensures DecryptPii(c, users[i].iin).Ok? <==> users[i].iin.Some? ==> Migrate(c, users[i], 0).Ok?
    ensures DecryptPii(c, users[i].iin).Ok? ==> HashAfter(c, users[i]) == NumberHash(c, users[i])
    ensures !ToWrite(c, users[i]) ==> HashAfter(c, users[i]) == users[i].iinHash
    ensures users[i].iinHash.Some? ==> HashAfter(c, users[i]) == users[i].iinHash
  {
  }

  /** On a table with true and unique hashes, some rows sealed and some not, in whatever mixture: the
      migration finishes if and only if every number can be decrypted and no two users have one number. */
  lemma SoundTableFinishesIff(c: Crypto, users: seq<User>, nonces: nat -> nat)
    requires Sound(c) && IsInjective(c) && HashesAreTrue(c, users) && HashesAreUnique(users)
    ensures Migrated(c, users, nonces, |users|).error == None <==> AllReadable(c, users) && NumbersDiffer(c, users)
  {
    FinishesIffHashesDiffer(c, users, nonces);
    forall i, j | 0 <= i < j < |users|
      ensures NumberHash(c, users[i]).Some? && NumberHash(c, users[i]) == NumberHash(c, users[j])
        <==> NumberOf(c, users[i]).Some? && NumberOf(c, users[i]) == NumberOf(c, users[j])
    {
      NumbersAreHashes(c, users[i], users[j]);
    }
  }

  lemma FinishesIffHashesDiffer(c: Crypto, users: seq<User>, nonces: nat -> nat)
    requires Sound(c) && HashesAreTrue(c, users) && HashesAreUnique(users)
    ensures Migrated(c, users, nonces, |users|).error == None <==> AllReadable(c, users) && HashesDiffer(c, users)
  {
    FinishesIff(c, users, nonces, |users|);
    if AllReadable(c, users) && HashesDiffer(c, users) {
      forall i | 0 <= i < |users| ensures Passes(c, users, i) {
        DifferentHashesPass(c, users, i);
      }
    }
    if forall i :: 0 <= i < |users| ==> Passes(c, users, i) {
      forall i | 0 <= i < |users| ensures DecryptPii(c, users[i].iin).Ok? {
        assert Passes(c, users, i);
        RowGetsItsHash(c, users, i);
      }
      forall i, j | 0 <= i < j < |users| && NumberHash(c, users[i]).Some?
        ensures NumberHash(c, users[i]) != NumberHash(c, users[j])
      {
        PassingRowsDiffer(c, users, i, j);
      }
    }
  }

  lemma PassingRowsDiffer(c: Crypto, users: seq<User>, i: nat, j: nat)
    requires Sound(c) && HashesAreTrue(c, users) && HashesAreUnique(users) && i < j < |users|
    requires Passes(c, users, i) && Passes(c, users, j) && NumberHash(c, users[i]).Some?
    ensures NumberHash(c, users[i]) != NumberHash(c, users[j])
  {
    RowGetsItsHash(c, users, i);
    RowGetsItsHash(c, users, j);
  }

  lemma DifferentHashesPass(c: Crypto, users: seq<User>, i: nat)
    requires Sound(c) && HashesAreTrue(c, users) && AllReadable(c, users) && HashesDiffer(c, users) && i < |users|
    ensures Passes(c, users, i)
  {
    forall k | 0 <= k < |users| {
      RowGetsItsHash(c, users, k);
    }
    forall j | 0 <= j < |users| && j != i && HashAfter(c, users[i]).Some?
      ensures (if j < i then HashAfter(c, users[j]) else users[j].iinHash) != HashAfter(c, users[i])
    {
      assert NumberHash(c, users[j]) != NumberHash(c, users[i]);
    }
  }

  /** Two users entered with one number, up to blanks around it, stop every migration of the table. */
  lemma SameNumberStops(c: Crypto, users: seq<User>, nonces: nat -> nat, i: nat, j: nat)
    requires Sound(c) && i < j < |users| && !Falsy(users[i].iin) && !Falsy(users[j].iin)
    requires !IsVersioned(users[i].iin.value) && !IsVersioned(users[j].iin.value)
    requires Trim(users[i].iin.value) == Trim(users[j].iin.value)
    ensures Migrated(c, users, nonces, |users|).error.Some?
  {
    FinishesIff(c, users, nonces, |users|);
    assert HashAfter(c, users[i]) == HashAfter(c, users[j]);
    assert !Passes(c, users, j);
  }

  // ---------------------------------------------------------------- migrating twice

  /** The one kind of row a second run writes again: sealed, without a hash, and sealing the empty text. */
  predicate SealsNothing(c: Crypto, user: User) {
    && !Falsy(user.iin) && IsVersioned(user.iin.value) && Falsy(user.iinHash)
    && DecryptPii(c, user.iin).Ok? && Falsy(DecryptPii(c, user.iin).value)
  }

  function SealingNothing(c: Crypto, users: seq<User>, n: nat): nat
    requires n <= |users|
  {
    if n == 0 then 0 else SealingNothing(c, users, n - 1) + if SealsNothing(c, users[n - 1]) then 1 else 0
  }

  /** A row after a finished migration is not written again, or is written exactly as it is. */
  lemma SecondTimeIsIdle(c: Crypto, user: User, nonce: nat, again: nat)
    requires Sound(c) && Migrate(c, user, nonce).Ok?
    ensures var once := match Migrate(c, user, nonce).value case Some(after) => after case None => user;
      Migrate(c, once, again) == Ok(if SealsNothing(c, user) then Some(once) else None)
  {
    if Migrate(c, user, nonce).value.Some? {
      MigrateKeeps(c, user, nonce);
    }
  }

  /** One row of a finished migration. */
  lemma {:induction false} MigratedRow(c: Crypto, users: seq<User>, nonces: nat -> nat, n: nat, i: nat)
    requires Sound(c) && i < n <= |users| && Migrated(c, users, nonces, n).error == None
    ensures Migrate(c, users[i], nonces(i)).Ok?
    ensures Migrated(c, users, nonces, n).users[i] ==
      match Migrate(c, users[i], nonces(i)).value case Some(after) => after case None => users[i]
  {
    MigrationKeepsNumbers(c, users, nonces, n - 1);
    if i < n - 1 {
      MigratedRow(c, users, nonces, n - 1, i);
    }
  }

  /** A second run leaves the table as it is, and writes to it exactly as often as rows seal nothing. */
  lemma {:induction false} MigrateTwiceIsOnce(
      c: Crypto, users: seq<User>, nonces: nat -> nat, again: nat -> nat, n: nat)
    requires Sound(c) && n <= |users| && Migrated(c, users, nonces, |users|).error == None
    ensures var once := Migrated(c, users, nonces, |users|).users;
      var twice := Migrated(c, once, again, n);
      twice.error == None && twice.users == once && twice.encrypted == SealingNothing(c, users, n)
  {
    if n > 0 {
      MigrateTwiceIsOnce(c, users, nonces, again, n - 1);
      MigratedRow(c, users, nonces, |users|, n - 1);
      SecondTimeIsIdle(c, users[n - 1], nonces(n - 1), again(n - 1));
    }
  }

  /** After a finished run no number is stored in plain, and every one has its hash except the rows that
      seal the empty text. */
  lemma FinishedRunProtectsAll(c: Crypto, users: seq<User>, nonces: nat -> nat, i: nat)
    requires Sound(c) && i < |users| && Migrated(c, users, nonces, |users|).error == None && !Falsy(users[i].iin)
    ensures var after := Migrated(c, users, nonces, |users|).users[i];
      !Falsy(after.iin) && IsVersioned(after.iin.value) && (Falsy(after.iinHash) ==> SealsNothing(c, users[i]))
  {
    MigratedRow(c, users, nonces, |users|, i);
    if Migrate(c, users[i], nonces(i)).value.Some? {
      MigrateKeeps(c, users[i], nonces(i));
    }
  }
}
