/**
 Encryption of the secrets inside a backup (internal/handler/client_sync.go). JSON texts are trees;
 AES-GCM is a pair of functions of which only "decrypting a ciphertext gives back the plaintext" is
 used. `enc` may fail and may depend on the position, as each call draws its own nonce. Reading a
 document turns every number into a 64-bit float and writing it prints that float: `reprint` is the
 two together, and fails on a number out of range, which makes the whole document unreadable.
 */
module SensitiveJson {
  import opened Common
  import Versions

  datatype Json =
    | Null
    | Bool(b: bool)
    | Number(text: string)
    | Str(s: string)
    | Arr(items: seq<Json>)
    | Obj(fields: map<string, Json>)

  datatype Part = Field(key: string) | Index(i: nat)

  type Path = seq<Part>

  type Rewriter = (Path, string) -> string

  predicate HasSuffix(s: string, suffix: string) {
    |suffix| <= |s| && s[|s| - |suffix|..] == suffix
  }

  predicate SensitiveKey(key: string, lower: string -> string) {
    var name := lower(Versions.Trim(key));
    || name in {"api_key", "apikey", "access_token", "accesstoken", "refresh_token", "refreshtoken", "token",
                "password", "secret", "app_secret", "private_key"}
    || HasSuffix(name, "_secret") || HasSuffix(name, "_token") || HasSuffix(name, "_key")
  }

  /** A string the transformation rewrites: under a sensitive key and not blank. */
  predicate Secret(key: string, child: Json, lower: string -> string) {
    SensitiveKey(key, lower) && child.Str? && Versions.Trim(child.s) != ""
  }

  function Transform(j: Json, path: Path, f: Rewriter, lower: string -> string): Json
    decreases j, 0
  {
    match j
    case Obj(o) => Obj(map k | k in o :: Child(k, o[k], path, f, lower))
    case Arr(a) => Arr(seq(|a|, i requires 0 <= i < |a| => Transform(a[i], path + [Index(i)], f, lower)))
    case _ => j
  }

  function Child(k: string, child: Json, path: Path, f: Rewriter, lower: string -> string): Json
    decreases child, 1
  {
    if Secret(k, child, lower) then Str(f(path + [Field(k)], child.s)) else Transform(child, path + [Field(k)], f, lower)
  }

  /** The code's form: rewrite every field or element of the container, one after the other. */
  method Rewrite(value: Json, path: Path, f: Rewriter, lower: string -> string) returns (r: Json)
    ensures r == Transform(value, path, f, lower)
    decreases value, 2
  {
    match value {
      case Obj(_) =>
        r := RewriteFields(value, path, f, lower);
      case Arr(_) =>
        r := RewriteItems(value, path, f, lower);
      case _ =>
        r := value;
    }
  }

  method RewriteFields(value: Json, path: Path, f: Rewriter, lower: string -> string) returns (r: Json)
    requires value.Obj?
    ensures r == Transform(value, path, f, lower)
    decreases value, 1
  {
    var o := value.fields;
    var typed, rest := o, o.Keys;
    while rest != {}
      invariant rest <= o.Keys == typed.Keys
      invariant forall k :: k in o ==> typed[k] == if k in rest then o[k] else Child(k, o[k], path, f, lower)
      decreases |rest|
    {
      var k :| k in rest;
      var child := RewriteChild(k, o[k], path, f, lower);
      typed := typed[k := child];
      rest := rest - {k};
    }
    assert typed == Transform(value, path, f, lower).fields;
    return Obj(typed);
  }

  /** A secret is rewritten and not looked into; anything else is traversed. */
  method RewriteChild(k: string, child: Json, path: Path, f: Rewriter, lower: string -> string) returns (r: Json)
    ensures r == Child(k, child, path, f, lower)
    decreases child, 3
  {
    if Secret(k, child, lower) {
      return Str(f(path + [Field(k)], child.s));
    }
    r := Rewrite(child, path + [Field(k)], f, lower);
  }

  method RewriteItems(value: Json, path: Path, f: Rewriter, lower: string -> string) returns (r: Json)
    requires value.Arr?
    ensures r == Transform(value, path, f, lower)
    decreases value, 1
  {
    var a := value.items;
    var typed := a;
    for i := 0 to |a|
      invariant |typed| == |a|
      invariant forall n :: 0 <= n < i ==> typed[n] == Transform(a[n], path + [Index(n)], f, lower)
      invariant forall n :: i <= n < |a| ==> typed[n] == a[n]
    {
      var child := Rewrite(a[i], path + [Index(i)], f, lower);
      typed := typed[i := child];
    }
    assert typed == Transform(value, path, f, lower).items;
    return Arr(typed);
  }

  // ---------- laws of the traversal ----------

  /** `holds` is true of every secret of the tree. */
  predicate AllSecrets(j: Json, path: Path, holds: (Path, string) -> bool, lower: string -> string)
    decreases j, 0
  {
    match j
    case Obj(o) => forall k :: k in o ==> ChildSecrets(k, o[k], path, holds, lower)
    case Arr(a) => forall i :: 0 <= i < |a| ==> AllSecrets(a[i], path + [Index(i)], holds, lower)
    case _ => true
  }

  predicate ChildSecrets(k: string, child: Json, path: Path, holds: (Path, string) -> bool, lower: string -> string)
    decreases child, 1
  {
    if Secret(k, child, lower) then holds(path + [Field(k)], child.s) else AllSecrets(child, path + [Field(k)], holds, lower)
  }

  function Then(f: Rewriter, g: Rewriter): Rewriter {
    (p, s) => g(p, f(p, s))
  }

  function Agree(f: Rewriter, g: Rewriter): (Path, string) -> bool {
    (p, s) => f(p, s) == g(p, s)
  }

  /** No secret is rewritten to a blank string, which the next pass would skip. */
  ghost predicate KeepsInk(f: Rewriter) {
    forall p, s :: Versions.Trim(s) != "" ==> Versions.Trim(f(p, s)) != ""
  }

  /** Two passes are one pass with the composed rewriting: the second finds the same secrets in the same places. */
  lemma {:induction false} TransformCompose(j: Json, path: Path, f: Rewriter, g: Rewriter, lower: string -> string)
    requires KeepsInk(f)
    ensures Transform(Transform(j, path, f, lower), path, g, lower) == Transform(j, path, Then(f, g), lower)
    decreases j, 0
  {
    match j
    case Obj(o) =>
      var once := map k | k in o :: Child(k, o[k], path, f, lower);
      forall k | k in o ensures Child(k, once[k], path, g, lower) == Child(k, o[k], path, Then(f, g), lower) {
        ChildCompose(k, o[k], path, f, g, lower);
      }
      assert Transform(j, path, Then(f, g), lower).fields == Transform(Obj(once), path, g, lower).fields;
    case Arr(a) =>
      var once := Transform(j, path, f, lower).items;
      forall i | 0 <= i < |a|
        ensures Transform(once[i], path + [Index(i)], g, lower) == Transform(a[i], path + [Index(i)], Then(f, g), lower)
      {
        TransformCompose(a[i], path + [Index(i)], f, g, lower);
      }
      assert Transform(j, path, Then(f, g), lower).items == Transform(Arr(once), path, g, lower).items;
    case _ =>
  }

  lemma {:induction false} ChildCompose(k: string, child: Json, path: Path, f: Rewriter, g: Rewriter, lower: string -> string)
    requires KeepsInk(f)
    ensures Child(k, Child(k, child, path, f, lower), path, g, lower) == Child(k, child, path, Then(f, g), lower)
    decreases child, 1
  {
    var at := path + [Field(k)];
    if Secret(k, child, lower) {
      assert Secret(k, Str(f(at, child.s)), lower);
    } else {
      TransformCompose(child, at, f, g, lower);
      assert !Secret(k, Transform(child, at, f, lower), lower);
    }
  }

  /** Two rewritings give the same tree exactly when they agree on every secret in it. */
  lemma {:induction false} TransformEqual(j: Json, path: Path, f: Rewriter, g: Rewriter, lower: string -> string)
    ensures Transform(j, path, f, lower) == Transform(j, path, g, lower) <==> AllSecrets(j, path, Agree(f, g), lower)
    decreases j, 0
  {
    match j
    case Obj(o) =>
      var x, y := Transform(j, path, f, lower).fields, Transform(j, path, g, lower).fields;
      forall k | k in o ensures x[k] == y[k] <==> ChildSecrets(k, o[k], path, Agree(f, g), lower) {
        ChildEqual(k, o[k], path, f, g, lower);
      }
      assert x == y <==> forall k :: k in o ==> x[k] == y[k];
    case Arr(a) =>
      var x, y := Transform(j, path, f, lower).items, Transform(j, path, g, lower).items;
      forall i | 0 <= i < |a| ensures x[i] == y[i] <==> AllSecrets(a[i], path + [Index(i)], Agree(f, g), lower) {
        TransformEqual(a[i], path + [Index(i)], f, g, lower);
      }
      assert x == y <==> forall i :: 0 <= i < |a| ==> x[i] == y[i];
    case _ =>
  }

  lemma {:induction false} ChildEqual(k: string, child: Json, path: Path, f: Rewriter, g: Rewriter, lower: string -> string)
    ensures Child(k, child, path, f, lower) == Child(k, child, path, g, lower)
       <==> ChildSecrets(k, child, path, Agree(f, g), lower)
    decreases child, 1
  {
    if !Secret(k, child, lower) {
      TransformEqual(child, path + [Field(k)], f, g, lower);
    }
  }

  function Keep(): Rewriter {
    (p, s) => s
  }

  lemma {:induction false} TransformKeep(j: Json, path: Path, lower: string -> string)
    ensures Transform(j, path, Keep(), lower) == j
    decreases j
  {
    match j
    case Obj(o) =>
      forall k | k in o ensures Child(k, o[k], path, Keep(), lower) == o[k] {
        TransformKeep(o[k], path + [Field(k)], lower);
      }
    case Arr(a) =>
      forall i | 0 <= i < |a| ensures Transform(a[i], path + [Index(i)], Keep(), lower) == a[i] {
        TransformKeep(a[i], path + [Index(i)], lower);
      }
      assert Transform(j, path, Keep(), lower).items == a;
    case _ =>
  }

  /** What holds of each rewritten secret holds of all secrets of the rewritten tree. */
  lemma {:induction false} SecretsAfter(j: Json, path: Path, f: Rewriter, holds: (Path, string) -> bool, lower: string -> string)
    requires KeepsInk(f) && forall p, s :: Versions.Trim(s) != "" ==> holds(p, f(p, s))
    ensures AllSecrets(Transform(j, path, f, lower), path, holds, lower)
    decreases j
  {
    match j
    case Obj(o) =>
      forall k | k in o && !Secret(k, o[k], lower)
        ensures AllSecrets(Transform(o[k], path + [Field(k)], f, lower), path + [Field(k)], holds, lower)
      {
        SecretsAfter(o[k], path + [Field(k)], f, holds, lower);
      }
    case Arr(a) =>
      forall i | 0 <= i < |a|
        ensures AllSecrets(Transform(a[i], path + [Index(i)], f, lower), path + [Index(i)], holds, lower)
      {
        SecretsAfter(a[i], path + [Index(i)], f, holds, lower);
      }
    case _ =>
  }

  // ---------- encryption ----------

  type Encrypt = (Path, string) -> Option<string>

  type Decrypt = string -> Option<string>

  predicate Marked(s: string) {
    |s| >= 4 && s[..4] == "ENC:"
  }

  function EncryptValue(enc: Encrypt): Rewriter {
    (p, s) => if Marked(s) then s else match enc(p, s) case None => s case Some(c) => "ENC:" + c
  }

  function DecryptValue(dec: Decrypt): Rewriter {
    (p: Path, s: string) => if !Marked(s) then s else match dec(s[4..]) case None => s case Some(d) => d
  }

  ghost predicate Inverse(enc: Encrypt, dec: Decrypt) {
    forall p, s :: enc(p, s).Some? ==> dec(enc(p, s).value) == Some(s)
  }

  lemma {:induction false} TrimKeepsInk(s: string, i: nat)
    requires i < |s| && !Versions.Space(s[i])
    ensures Versions.Trim(s) != ""
  {
    if Versions.Space(s[0]) {
      TrimKeepsInk(s[1..], i - 1);
    } else {
      TrimRightKeeps(s, i);
    }
  }

  lemma {:induction false} TrimRightKeeps(s: string, i: nat)
    requires i < |s| && !Versions.Space(s[i])
    ensures Versions.TrimRight(s) != ""
  {
    if Versions.Space(s[|s| - 1]) {
      TrimRightKeeps(s[..|s| - 1], i);
    }
  }

  lemma MarkedIsNotBlank(s: string)
    requires Marked(s)
    ensures Versions.Trim(s) != ""
  {
    assert s[0] == s[..4][0] == 'E';
    TrimKeepsInk(s, 0);
  }

  lemma EncryptKeepsInk(enc: Encrypt)
    ensures KeepsInk(EncryptValue(enc))
  {
    forall p, s | Versions.Trim(s) != "" ensures Versions.Trim(EncryptValue(enc)(p, s)) != "" {
      if EncryptValue(enc)(p, s) != s {
        MarkedIsNotBlank("ENC:" + enc(p, s).value);
      }
    }
  }

  /** A secret survives unless it already looks encrypted and decrypts to something else. */
  function Recoverable(dec: Decrypt): (Path, string) -> bool {
    (p: Path, s: string) => Marked(s) ==> dec(s[4..]) in {None, Some(s)}
  }

  lemma ValueRoundTrip(p: Path, s: string, enc: Encrypt, dec: Decrypt)
    requires Inverse(enc, dec)
    ensures DecryptValue(dec)(p, EncryptValue(enc)(p, s)) == s <==> Recoverable(dec)(p, s)
  {
    if !Marked(s) && enc(p, s).Some? {
      assert ("ENC:" + enc(p, s).value)[4..] == enc(p, s).value;
    }
  }

  // ---------- reading and printing ----------

  type Reprint = string -> Option<string>

  /** Printing a float and reading it back gives the same float. */
  ghost predicate Stable(reprint: Reprint) {
    forall n :: reprint(n).Some? ==> reprint(reprint(n).value) == reprint(n)
  }

  /** The decoder's limit on nested containers. */
  const MAX_DEPTH := 10000

  /** The decoder accepts the document: not nested too deep, and no number out of range. */
  predicate Readable(j: Json, depth: nat, reprint: Reprint)
    decreases j
  {
    match j
    case Number(n) => reprint(n).Some?
    case Obj(o) => depth > 0 && forall k :: k in o ==> Readable(o[k], depth - 1, reprint)
    case Arr(a) => depth > 0 && forall i :: 0 <= i < |a| ==> Readable(a[i], depth - 1, reprint)
    case _ => true
  }

  /** Every number as it comes out again. */
  function Reprinted(j: Json, reprint: Reprint): Json {
    match j
    case Number(n) => if reprint(n).Some? then Number(reprint(n).value) else j
    case Obj(o) => Obj(map k | k in o :: Reprinted(o[k], reprint))
    case Arr(a) => Arr(seq(|a|, i requires 0 <= i < |a| => Reprinted(a[i], reprint)))
    case _ => j
  }

  /** No number changes by being read and printed. */
  predicate NumbersFixed(j: Json, reprint: Reprint) {
    match j
    case Number(n) => reprint(n) == Some(n)
    case Obj(o) => forall k :: k in o ==> NumbersFixed(o[k], reprint)
    case Arr(a) => forall i :: 0 <= i < |a| ==> NumbersFixed(a[i], reprint)
    case _ => true
  }

  /** A document that cannot be read is passed on as it is, secrets included. */
  function Process(j: Json, f: Rewriter, reprint: Reprint, lower: string -> string): Json {
    if Readable(j, MAX_DEPTH, reprint) then Transform(Reprinted(j, reprint), [], f, lower) else j
  }

  function EncryptSensitive(j: Json, enc: Encrypt, reprint: Reprint, lower: string -> string): Json {
    Process(j, EncryptValue(enc), reprint, lower)
  }

  function DecryptSensitive(j: Json, dec: Decrypt, reprint: Reprint, lower: string -> string): Json {
    Process(j, DecryptValue(dec), reprint, lower)
  }

  method EncryptSensitiveData(j: Json, enc: Encrypt, reprint: Reprint, lower: string -> string) returns (r: Json)
    ensures r == EncryptSensitive(j, enc, reprint, lower)
  {
    if !Readable(j, MAX_DEPTH, reprint) {
      return j;
    }
    r := Rewrite(Reprinted(j, reprint), [], EncryptValue(enc), lower);
  }

  method DecryptSensitiveData(j: Json, dec: Decrypt, reprint: Reprint, lower: string -> string) returns (r: Json)
    ensures r == DecryptSensitive(j, dec, reprint, lower)
  {
    if !Readable(j, MAX_DEPTH, reprint) {
      return j;
    }
    r := Rewrite(Reprinted(j, reprint), [], DecryptValue(dec), lower);
  }

  /** Once printed, a document's numbers stay as they are, and it can be read again. */
  lemma {:induction false} ReprintedIsFixed(j: Json, depth: nat, reprint: Reprint)
    requires Stable(reprint) && Readable(j, depth, reprint)
    ensures NumbersFixed(Reprinted(j, reprint), reprint) && Readable(Reprinted(j, reprint), depth, reprint)
    decreases j
  {
    match j
    case Obj(o) =>
      forall k | k in o
        ensures NumbersFixed(Reprinted(o[k], reprint), reprint) && Readable(Reprinted(o[k], reprint), depth - 1, reprint)
      {
        ReprintedIsFixed(o[k], depth - 1, reprint);
      }
    case Arr(a) =>
      forall i | 0 <= i < |a|
        ensures NumbersFixed(Reprinted(a[i], reprint), reprint) && Readable(Reprinted(a[i], reprint), depth - 1, reprint)
      {
        ReprintedIsFixed(a[i], depth - 1, reprint);
      }
    case _ =>
  }

  lemma {:induction false} FixedStays(j: Json, reprint: Reprint)
    requires NumbersFixed(j, reprint)
    ensures Reprinted(j, reprint) == j
  {
    match j
    case Obj(o) =>
      forall k | k in o ensures Reprinted(o[k], reprint) == o[k] {
        FixedStays(o[k], reprint);
      }
    case Arr(a) =>
      forall i | 0 <= i < |a| ensures Reprinted(a[i], reprint) == a[i] {
        FixedStays(a[i], reprint);
      }
      assert Reprinted(j, reprint).items == a;
    case _ =>
  }

  /** Rewriting secrets touches no number and no nesting. */
  lemma {:induction false} TransformKeepsNumbers(j: Json, path: Path, f: Rewriter, depth: nat, reprint: Reprint, lower: string -> string)
    ensures NumbersFixed(Transform(j, path, f, lower), reprint) == NumbersFixed(j, reprint)
    ensures Readable(Transform(j, path, f, lower), depth, reprint) == Readable(j, depth, reprint)
    decreases j, 0
  {
    match j
    case Obj(o) =>
      var d: nat := if depth > 0 then depth - 1 else 0;
      var t := Transform(j, path, f, lower).fields;
      forall k | k in o
        ensures NumbersFixed(t[k], reprint) == NumbersFixed(o[k], reprint)
        ensures Readable(t[k], d, reprint) == Readable(o[k], d, reprint)
      {
        ChildKeepsNumbers(k, o[k], path, f, d, reprint, lower);
      }
    case Arr(a) =>
      var d: nat := if depth > 0 then depth - 1 else 0;
      var t := Transform(j, path, f, lower).items;
      forall i | 0 <= i < |a|
        ensures NumbersFixed(t[i], reprint) == NumbersFixed(a[i], reprint)
        ensures Readable(t[i], d, reprint) == Readable(a[i], d, reprint)
      {
        TransformKeepsNumbers(a[i], path + [Index(i)], f, d, reprint, lower);
      }
    case _ =>
  }

  lemma {:induction false} ChildKeepsNumbers(k: string, child: Json, path: Path, f: Rewriter, depth: nat, reprint: Reprint,
                                             lower: string -> string)
    ensures NumbersFixed(Child(k, child, path, f, lower), reprint) == NumbersFixed(child, reprint)
    ensures Readable(Child(k, child, path, f, lower), depth, reprint) == Readable(child, depth, reprint)
    decreases child, 1
  {
    if !Secret(k, child, lower) {
      TransformKeepsNumbers(child, path + [Field(k)], f, depth, reprint, lower);
    }
  }

  /** Two passes with any rewritings are one, numbers printed once. */
  lemma ProcessTwice(j: Json, f: Rewriter, g: Rewriter, reprint: Reprint, lower: string -> string)
    requires Stable(reprint) && KeepsInk(f) && Readable(j, MAX_DEPTH, reprint)
    ensures Process(Process(j, f, reprint, lower), g, reprint, lower) == Transform(Reprinted(j, reprint), [], Then(f, g), lower)
    ensures NumbersFixed(Process(Process(j, f, reprint, lower), g, reprint, lower), reprint)
  {
    var once := Reprinted(j, reprint);
    ReprintedIsFixed(j, MAX_DEPTH, reprint);
    TransformKeepsNumbers(once, [], f, MAX_DEPTH, reprint, lower);
    FixedStays(Transform(once, [], f, lower), reprint);
    TransformCompose(once, [], f, g, lower);
    TransformKeepsNumbers(once, [], Then(f, g), MAX_DEPTH, reprint, lower);
  }

  /**
   Decrypting an encrypted document gives the document back, whatever its nesting, if and only if the
   document cannot be read at all (it is then kept as it is, in the clear), or no number in it changes
   by being printed and none of its secrets starts with the marker and decrypts to something else.
   */
  lemma DecryptAfterEncrypt(j: Json, enc: Encrypt, dec: Decrypt, reprint: Reprint, lower: string -> string)
    requires Inverse(enc, dec) && Stable(reprint)
    ensures DecryptSensitive(EncryptSensitive(j, enc, reprint, lower), dec, reprint, lower) == j
       <==> Recovers(j, dec, reprint, lower)
  {
    if Readable(j, MAX_DEPTH, reprint) {
      var e, d := EncryptValue(enc), DecryptValue(dec);
      EncryptKeepsInk(enc);
      ProcessTwice(j, e, d, reprint, lower);
      if NumbersFixed(j, reprint) {
        FixedStays(j, reprint);
        SecretsRoundTrip(j, enc, dec, lower);
      }
    }
  }

  predicate Recovers(j: Json, dec: Decrypt, reprint: Reprint, lower: string -> string) {
    Readable(j, MAX_DEPTH, reprint) ==> NumbersFixed(j, reprint) && AllSecrets(j, [], Recoverable(dec), lower)
  }

  lemma SecretsRoundTrip(j: Json, enc: Encrypt, dec: Decrypt, lower: string -> string)
    requires Inverse(enc, dec)
    ensures Transform(j, [], Then(EncryptValue(enc), DecryptValue(dec)), lower) == j <==> AllSecrets(j, [], Recoverable(dec), lower)
  {
    var e, d := EncryptValue(enc), DecryptValue(dec);
    TransformKeep(j, [], lower);
    TransformEqual(j, [], Then(e, d), Keep(), lower);
    forall p, s ensures Agree(Then(e, d), Keep())(p, s) == Recoverable(dec)(p, s) {
      ValueRoundTrip(p, s, enc, dec);
    }
    SameSecrets(j, [], Agree(Then(e, d), Keep()), Recoverable(dec), lower);
  }

  /** A document without any secret that does not survive: a 16-digit id comes back as its neighbour. */
  lemma LargeNumberChanges(enc: Encrypt, dec: Decrypt, reprint: Reprint, lower: string -> string)
    requires reprint("9007199254740993") == Some("9007199254740992") && reprint("9007199254740992") == Some("9007199254740992")
    ensures var j := Obj(map["seed" := Number("9007199254740993")]);
            && AllSecrets(j, [], Recoverable(dec), lower)
            && DecryptSensitive(EncryptSensitive(j, enc, reprint, lower), dec, reprint, lower)
               == Obj(map["seed" := Number("9007199254740992")])
  {
    var j, k := Obj(map["seed" := Number("9007199254740993")]), Obj(map["seed" := Number("9007199254740992")]);
    assert Reprinted(j, reprint).fields == k.fields;
    assert Reprinted(k, reprint).fields == k.fields;
    NumberIsNoSecret("seed", "9007199254740992", EncryptValue(enc), lower);
    NumberIsNoSecret("seed", "9007199254740992", DecryptValue(dec), lower);
  }

  lemma NumberIsNoSecret(key: string, n: string, f: Rewriter, lower: string -> string)
    ensures Transform(Obj(map[key := Number(n)]), [], f, lower) == Obj(map[key := Number(n)])
  {
    var j := Obj(map[key := Number(n)]);
    assert Child(key, j.fields[key], [], f, lower) == Number(n);
    assert Transform(j, [], f, lower).fields == j.fields;
  }

  /** One number out of range, and a password next to it is stored in the clear. */
  lemma UnreadableStaysPlain(enc: Encrypt, reprint: Reprint, lower: string -> string)
    requires reprint("1e400").None?
    ensures var j := Obj(map["password" := Str("p"), "n" := Number("1e400")]); EncryptSensitive(j, enc, reprint, lower) == j
  {
    var j := Obj(map["password" := Str("p"), "n" := Number("1e400")]);
    assert !Readable(j.fields["n"], MAX_DEPTH - 1, reprint);
  }

  lemma {:induction false} SameSecrets(j: Json, path: Path, a: (Path, string) -> bool, b: (Path, string) -> bool, lower: string -> string)
    requires forall p, s :: a(p, s) == b(p, s)
    ensures AllSecrets(j, path, a, lower) == AllSecrets(j, path, b, lower)
    decreases j
  {
    match j
    case Obj(o) =>
      forall k | k in o ensures AllSecrets(o[k], path + [Field(k)], a, lower) == AllSecrets(o[k], path + [Field(k)], b, lower) {
        SameSecrets(o[k], path + [Field(k)], a, b, lower);
      }
    case Arr(items) =>
      forall i | 0 <= i < |items|
        ensures AllSecrets(items[i], path + [Index(i)], a, lower) == AllSecrets(items[i], path + [Index(i)], b, lower)
      {
        SameSecrets(items[i], path + [Index(i)], a, b, lower);
      }
    case _ =>
  }

  /** A second pass, with new nonces, changes nothing (given it fails wherever the first failed). */
  lemma EncryptIsIdempotent(j: Json, enc: Encrypt, again: Encrypt, reprint: Reprint, lower: string -> string)
    requires Stable(reprint) && forall p, s :: enc(p, s).None? ==> again(p, s).None?
    ensures EncryptSensitive(EncryptSensitive(j, enc, reprint, lower), again, reprint, lower) == EncryptSensitive(j, enc, reprint, lower)
  {
    if Readable(j, MAX_DEPTH, reprint) {
      var e, f, once := EncryptValue(enc), EncryptValue(again), Reprinted(j, reprint);
      EncryptKeepsInk(enc);
      ProcessTwice(j, e, f, reprint, lower);
      TransformEqual(once, [], Then(e, f), e, lower);
      forall p, s ensures Agree(Then(e, f), e)(p, s) {
      }
      Everywhere(once, [], Agree(Then(e, f), e), lower);
    }
  }

  lemma {:induction false} Everywhere(j: Json, path: Path, holds: (Path, string) -> bool, lower: string -> string)
    requires forall p, s :: holds(p, s)
    ensures AllSecrets(j, path, holds, lower)
    decreases j
  {
    match j
    case Obj(o) =>
      forall k | k in o ensures AllSecrets(o[k], path + [Field(k)], holds, lower) {
        Everywhere(o[k], path + [Field(k)], holds, lower);
      }
    case Arr(a) =>
      forall i | 0 <= i < |a| ensures AllSecrets(a[i], path + [Index(i)], holds, lower) {
        Everywhere(a[i], path + [Index(i)], holds, lower);
      }
    case _ =>
  }

  function Marker(): (Path, string) -> bool {
    (p, s) => Marked(s)
  }

  /** While encryption itself works, no secret of a document that can be read is stored without the marker. */
  lemma NothingLeftPlain(j: Json, enc: Encrypt, reprint: Reprint, lower: string -> string)
    requires forall p, s :: enc(p, s).Some?
    ensures AllSecrets(EncryptSensitive(j, enc, reprint, lower), [], Marker(), lower)
       <==> Readable(j, MAX_DEPTH, reprint) || AllSecrets(j, [], Marker(), lower)
  {
    EncryptKeepsInk(enc);
    SecretsAfter(Reprinted(j, reprint), [], EncryptValue(enc), Marker(), lower);
  }

  function Stars(): Rewriter {
    (p, s) => "***"
  }

  /** Blank out the secrets: what two documents share besides them. */
  function Redact(j: Json, lower: string -> string): Json {
    Transform(j, [], Stars(), lower)
  }

  /**
   Encryption changes nothing but secrets (keys, other values, order and shape all stay) if and only if
   the document cannot be read, or no number in it changes by being printed.
   */
  lemma EncryptChangesOnlySecrets(j: Json, enc: Encrypt, reprint: Reprint, lower: string -> string)
    requires Stable(reprint)
    ensures Redact(EncryptSensitive(j, enc, reprint, lower), lower) == Redact(j, lower)
       <==> (Readable(j, MAX_DEPTH, reprint) ==> NumbersFixed(j, reprint))
  {
    if Readable(j, MAX_DEPTH, reprint) {
      var once := Reprinted(j, reprint);
      EncryptRedacts(once, enc, lower);
      ReprintedIsFixed(j, MAX_DEPTH, reprint);
      TransformKeepsNumbers(once, [], Stars(), MAX_DEPTH, reprint, lower);
      TransformKeepsNumbers(j, [], Stars(), MAX_DEPTH, reprint, lower);
      if NumbersFixed(j, reprint) {
        FixedStays(j, reprint);
      }
    }
  }

  lemma EncryptRedacts(j: Json, enc: Encrypt, lower: string -> string)
    ensures Redact(Transform(j, [], EncryptValue(enc), lower), lower) == Redact(j, lower)
  {
    var e := EncryptValue(enc);
    EncryptKeepsInk(enc);
    TransformCompose(j, [], e, Stars(), lower);
    TransformEqual(j, [], Then(e, Stars()), Stars(), lower);
    Everywhere(j, [], Agree(Then(e, Stars()), Stars()), lower);
  }
}
