/**
 What a backup looks like at rest, place by place in the document, and how many versions are kept
 (internal/handler/client_sync.go).
 */
module StoredLaw {
  import opened Common
  import opened SensitiveJson
  import B = BackupLaw
  import Versions
  import X = TextLaw

  // ---------- which fields are secrets ----------

  predicate EndsIn(name: string, suffix: string) {
    |name| >= |suffix| && name[|name| - |suffix|..] == suffix
  }

  /** The key, trimmed and in lower case, is one of eleven names or ends in one of three suffixes. */
  predicate SecretName(key: string, lower: string -> string) {
    var name := lower(Versions.Trim(key));
    || name == "api_key" || name == "apikey" || name == "access_token" || name == "accesstoken" || name == "refresh_token"
    || name == "refreshtoken" || name == "token" || name == "password" || name == "secret" || name == "app_secret"
    || name == "private_key" || EndsIn(name, "_secret") || EndsIn(name, "_token") || EndsIn(name, "_key")
  }

  lemma SecretNameIs(key: string, lower: string -> string)
    ensures SensitiveKey(key, lower) <==> SecretName(key, lower)
  {
  }

  // ---------- places in a document ----------

  function At(j: Json, place: Path): Option<Json> {
    if place == [] then Some(j)
    else
      match place[0]
      case Field(k) => if j.Obj? && k in j.fields then At(j.fields[k], place[1..]) else None
      case Index(i) => if j.Arr? && i < |j.items| then At(j.items[i], place[1..]) else None
  }

  /** The place of a string that is not blank, under a secret name. */
  predicate SecretPlace(place: Path, s: string, lower: string -> string) {
    && place != [] && place[|place| - 1].Field? && SecretName(place[|place| - 1].key, lower)
    && Versions.Trim(s) != ""
  }

  /** The same kind of value, with this text if it is a string and this one if it is a number; containers keep their places. */
  predicate Keeps(before: Json, after: Json, text: string, number: string) {
    match before
    case Str(_) => after == Str(text)
    case Number(_) => after == Number(number)
    case Obj(o) => after.Obj? && after.fields.Keys == o.Keys
    case Arr(a) => after.Arr? && |after.items| == |a|
    case _ => after == before
  }

  function TextOf(j: Json): string {
    if j.Str? then j.s else ""
  }

  function NumberOf(j: Json): string {
    if j.Number? then j.text else ""
  }

  lemma Deeper(base: Path, place: Path)
    requires place != []
    ensures base + [place[0]] + place[1..] == base + place
  {
    assert [place[0]] + place[1..] == place;
  }

  /**
   The traversal keeps every place. Strings in secret places are rewritten; other strings, numbers, truth
   values and nulls stay; objects keep their keys and lists their length.
   */
  lemma {:induction false} TransformAt(j: Json, base: Path, place: Path, f: Rewriter, lower: string -> string)
    ensures var before, after := At(j, place), At(Transform(j, base, f, lower), place);
      && (before.None? <==> after.None?)
      && (before.Some? ==>
            var text := TextOf(before.value);
            Keeps(before.value, after.value, if SecretPlace(place, text, lower) then f(base + place, text) else text,
                  NumberOf(before.value)))
    decreases place
  {
    if place != [] {
      Deeper(base, place);
      match place[0] {
        case Field(k) =>
          if j.Obj? && k in j.fields {
            SecretNameIs(k, lower);
            if Secret(k, j.fields[k], lower) {
              LeafStops(j.fields[k], f(base + [place[0]], j.fields[k].s), place[1..]);
              assert |place| == 1 ==> place == [place[0]];
            } else {
              TransformAt(j.fields[k], base + [place[0]], place[1..], f, lower);
            }
          }
        case Index(i) =>
          if j.Arr? && i < |j.items| {
            TransformAt(j.items[i], base + [place[0]], place[1..], f, lower);
          }
      }
    }
  }

  /** There is nothing below a string. */
  lemma LeafStops(leaf: Json, s: string, place: Path)
    requires leaf.Str?
    ensures place != [] ==> At(leaf, place).None? && At(Str(s), place).None?
  {
  }

  lemma {:induction false} ReprintedAt(j: Json, place: Path, reprint: Reprint)
    ensures var before, after := At(j, place), At(Reprinted(j, reprint), place);
      && (before.None? <==> after.None?)
      && (before.Some? ==> Keeps(before.value, after.value, TextOf(before.value), Printed(NumberOf(before.value), reprint)))
    decreases place
  {
    if place != [] {
      match place[0] {
        case Field(k) => if j.Obj? && k in j.fields { ReprintedAt(j.fields[k], place[1..], reprint); }
        case Index(i) => if j.Arr? && i < |j.items| { ReprintedAt(j.items[i], place[1..], reprint); }
      }
    }
  }

  function Printed(number: string, reprint: Reprint): string {
    if reprint(number).Some? then reprint(number).value else number
  }

  // ---------- at rest ----------

  /** A secret at rest: as it is if it carries the marker already or cannot be encrypted, else marked and encrypted. */
  function AtRest(enc: Encrypt, place: Path, s: string): string {
    if |s| >= 4 && s[0] == 'E' && s[1] == 'N' && s[2] == 'C' && s[3] == ':' then s
    else
      match enc(place, s)
      case None => s
      case Some(c) => "ENC:" + c
  }

  lemma AtRestIs(enc: Encrypt, place: Path, s: string)
    ensures EncryptValue(enc)(place, s) == AtRest(enc, place, s)
  {
    if |s| >= 4 {
      assert s[..4] == "ENC:" <==> s[0] == 'E' && s[1] == 'N' && s[2] == 'C' && s[3] == ':';
    }
  }

  /** The types whose secrets are encrypted, and those that may be pushed at all. */
  lemma TypesAre(dataType: string)
    ensures B.HoldsSecrets(dataType) <==> dataType == "ai_config" || dataType == "random_word_ai_config"
    ensures B.ValidType(dataType) <==>
              || dataType == "scripts" || dataType == "danmaku_groups"
              || dataType == "ai_config" || dataType == "random_word_ai_config"
  {
  }

  /**
   What a push stores at each place of a readable document. In the two types that hold secrets: strings in
   secret places encrypted, numbers as they print, everything else as pushed. In the other types, and of an
   unreadable document, everything as pushed.
   */
  lemma StoredAt(j: Json, dataType: string, c: B.Cipher, place: Path)
    ensures var before, stored := At(j, place), B.Seal(B.Tree(j), dataType, c);
      && stored.Tree?
      && var after := At(stored.json, place);
         if !(dataType in {"ai_config", "random_word_ai_config"}) || !Readable(j, MAX_DEPTH, c.reprint) then after == before
         else
           && (before.None? <==> after.None?)
           && (before.Some? ==>
                 var text := TextOf(before.value);
                 Keeps(before.value, after.value, if SecretPlace(place, text, c.lower) then AtRest(c.enc, place, text) else text,
                       Printed(NumberOf(before.value), c.reprint)))
  {
    TypesAre(dataType);
    ReprintedAt(j, place, c.reprint);
    TransformAt(Reprinted(j, c.reprint), [], place, EncryptValue(c.enc), c.lower);
    assert [] + place == place;
    if At(j, place).Some? {
      AtRestIs(c.enc, place, TextOf(At(j, place).value));
    }
  }

  /** The decoder gives up at ten thousand nested containers, and on a number out of range. */
  lemma TooDeep()
    ensures MAX_DEPTH == 10_000
  {
  }

  predicate HasVersion(rows: B.Rows, g: B.Group, version: int) {
    exists id :: id in rows && rows[id].group == g && rows[id].version == version
  }

  /** After a push whose clean-up works exactly the last ten version numbers are left. */
  lemma TenNewestKept(steps: seq<B.Step>, push: B.Step, tenantOf: string -> string, version: int)
    requires B.RunEnabled(steps, tenantOf) && push.PushStep? && B.Enabled(B.Run(steps, tenantOf), push) && push.failed == {}
    ensures HasVersion(B.Run(steps + [push], tenantOf), push.g, version)
       <==> 1 <= version <= push.version && version > push.version - 10
  {
    var rows := B.Run(steps + [push], tenantOf);
    B.AfterPush(steps, push, tenantOf);
    InNumbers(rows, push.g, version);
  }

  lemma InNumbers(rows: B.Rows, g: B.Group, version: int)
    ensures version in B.Numbers(rows, g) <==> HasVersion(rows, g, version)
  {
    if id :| id in rows && rows[id].group == g && rows[id].version == version {
      assert id in B.Members(rows, g);
    }
  }
}
