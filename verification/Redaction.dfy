/**
 Redaction of request bodies before they enter the audit log
 (internal/audit/summary.go:38-60, 114-143).
 */
module Redaction {
  import opened Base
  import opened Json

  const REDACTED := Str("[redacted]")

  /** strings.ToLower, one character at a time. Outside ASCII only the Kelvin sign and
      the dotted capital I have an ASCII lower case; what the other letters become
      cannot make a name equal one of the ASCII names below. */
  function LowerChar(c: char): char {
    if 'A' <= c <= 'Z' then c - 'A' + 'a'
    else if c == '\U{212A}' then 'k'
    else if c == '\U{0130}' then 'i'
    else c
  }

  function ToLower(s: string): string {
    seq(|s|, i requires 0 <= i < |s| => LowerChar(s[i]))
  }

  const SENSITIVE_FIELDS: set<string> := {
    "password", "password_hash", "passwordhash", "secret", "token", "private_key",
    "privatekey", "key_data", "stdin", "content", "authorization"
  }

  predicate Sensitive(name: string) {
    ToLower(name) in SENSITIVE_FIELDS
  }

  /** The same letter, or the same but for its case. */
  predicate SameLetter(c: char, d: char) {
    || c == d
    || ('a' <= c <= 'z' && d == c - 'a' + 'A')
    || ('A' <= c <= 'Z' && d == c - 'A' + 'a')
  }

  /** Names that differ only in case are judged alike. */
  lemma CaseDoesNotMatter(a: string, b: string)
    requires |a| == |b| && forall i | 0 <= i < |a| :: SameLetter(a[i], b[i])
    ensures Sensitive(a) <==> Sensitive(b)
  {
    assert ToLower(a) == ToLower(b);
  }

  /** In lower case the sensitive names are these, as a whole and no others. */
  lemma SensitiveNamesAre(name: string)
    requires forall i | 0 <= i < |name| :: 'a' <= name[i] <= 'z' || name[i] == '_'
    ensures Sensitive(name) <==>
      || name == "password" || name == "password_hash" || name == "passwordhash" || name == "secret"
      || name == "token" || name == "private_key" || name == "privatekey" || name == "key_data"
      || name == "stdin" || name == "content" || name == "authorization"
  {
    assert ToLower(name) == name;
  }

  /** Only letters that have one of these as their lower case can stand in a sensitive name:
      ASCII letters and underscores, the Kelvin sign and the dotted capital I. */
  lemma SensitiveLetters(name: string, i: nat)
    requires Sensitive(name) && i < |name|
    ensures
      var c := name[i];
      'a' <= c <= 'z' || 'A' <= c <= 'Z' || c == '_' || c == '\U{212A}' || c == '\U{0130}'
  {
    assert ToLower(name)[i] == LowerChar(name[i]);
    Letters(ToLower(name), i);
  }

  lemma Letters(name: string, i: nat)
    requires name in SENSITIVE_FIELDS && i < |name|
    ensures 'a' <= name[i] <= 'z' || name[i] == '_'
  {
  }

  /** v without its secrets. */
  function Redacted(v: Value): Value {
    match v
    case Obj(fields) => Obj(map k | k in fields :: if Sensitive(k) then REDACTED else Redacted(fields[k]))
    case Arr(items) => Arr(seq(|items|, i requires 0 <= i < |items| => Redacted(items[i])))
    case _ => v
  }

  // ------------------------------------------------------------ the recursion

  method RedactValue(v: Value) returns (r: Value)
    ensures r == Redacted(v)
    decreases v, 1
  {
    match v
    case Obj(fields) =>
      r := RedactFields(fields);
    case Arr(items) =>
      r := RedactItems(items);
    case _ =>
      r := v;
  }

  /** The map is walked in any order. */
  method RedactFields(fields: map<string, Value>) returns (r: Value)
    ensures r == Redacted(Obj(fields))
    decreases Obj(fields), 0
  {
    var out: map<string, Value> := map[];
    var todo := fields.Keys;
    while todo != {}
      invariant todo <= fields.Keys && out.Keys == fields.Keys - todo
      invariant forall k | k in out :: out[k] == if Sensitive(k) then REDACTED else Redacted(fields[k])
    {
      var k :| k in todo;
      if Sensitive(k) {
        out := out[k := REDACTED];
      } else {
        var inner := RedactValue(fields[k]);
        out := out[k := inner];
      }
      todo := todo - {k};
    }
    assert out == map k | k in fields :: if Sensitive(k) then REDACTED else Redacted(fields[k]);
    return Obj(out);
  }

  method RedactItems(items: seq<Value>) returns (r: Value)
    ensures r == Redacted(Arr(items))
    decreases Arr(items), 0
  {
    var out := [];
    for i := 0 to |items|
      invariant |out| == i && forall j | 0 <= j < i :: out[j] == Redacted(items[j])
    {
      var inner := RedactValue(items[i]);
      out := out + [inner];
    }
    assert out == seq(|items|, i requires 0 <= i < |items| => Redacted(items[i]));
    return Arr(out);
  }

  // -------------------------------------------------- what that means by path

  predicate SensitiveHop(h: Hop) {
    h.Field? && Sensitive(h.key)
  }

  /** No field on the way is sensitive. */
  predicate Public(path: Path) {
    forall i | 0 <= i < |path| :: !SensitiveHop(path[i])
  }

  /** What v looks like at its root: a leaf, the field names, or the length. */
  datatype Face = Leaf(v: Value) | Names(names: set<string>) | Length(n: nat)

  function FaceOf(v: Value): Face {
    match v
    case Obj(fields) => Names(fields.Keys)
    case Arr(items) => Length(|items|)
    case _ => Leaf(v)
  }

  function FaceAt(v: Value, path: Path): Option<Face> {
    match At(v, path)
    case Some(w) => Some(FaceOf(w))
    case None => None
  }

  /** Outside the sensitive fields nothing is added, dropped or changed: a public path
      leads to the redaction of what it led to. */
  lemma {:induction false} PublicPathsAreKept(v: Value, path: Path)
    requires Public(path)
    ensures At(Redacted(v), path) == match At(v, path)
                                     case Some(w) => Some(Redacted(w))
                                     case None => None
    decreases |path|
  {
    if path == [] {
    } else {
      assert !SensitiveHop(path[0]);
      match (v, path[0])
      case (Obj(fields), Field(key)) =>
        if key in fields {
          PublicPathsAreKept(fields[key], path[1..]);
        }
      case (Arr(items), Item(index)) =>
        if index < |items| {
          PublicPathsAreKept(items[index], path[1..]);
        }
      case _ =>
    }
  }

  /** A path through a sensitive field ends at that field, in the marker: whatever was
      there, at any depth, is gone. The field itself stays. */
  lemma {:induction false} SensitivePathsAreCut(v: Value, path: Path, key: string, rest: Path)
    requires Public(path) && Sensitive(key)
    ensures
      var sensitive := path + [Field(key)];
      && (At(Redacted(v), sensitive + rest).Some? ==> rest == [])
      && (At(Redacted(v), sensitive).Some? <==> At(v, sensitive).Some?)
      && (At(v, sensitive).Some? ==> At(Redacted(v), sensitive) == Some(REDACTED))
    decreases |path|
  {
    var sensitive := path + [Field(key)];
    var all := sensitive + rest;
    if path == [] {
      assert sensitive[0] == all[0] == Field(key) && sensitive[1..] == [] && all[1..] == rest;
      if v.Obj? && key in v.fields {
        assert At(Redacted(v), all) == At(REDACTED, rest) && At(Redacted(v), sensitive) == At(REDACTED, []);
      }
    } else {
      assert sensitive[0] == all[0] == path[0] && !SensitiveHop(path[0]);
      assert sensitive[1..] == path[1..] + [Field(key)];
      assert all[1..] == path[1..] + [Field(key)] + rest;
      match (v, path[0])
      case (Obj(fields), Field(k)) =>
        if k in fields {
          SensitivePathsAreCut(fields[k], path[1..], key, rest);
        }
      case (Arr(items), Item(index)) =>
        if index < |items| {
          SensitivePathsAreCut(items[index], path[1..], key, rest);
        }
      case _ =>
    }
  }

  lemma {:induction false} RedactingTwice(v: Value)
    ensures Redacted(Redacted(v)) == Redacted(v)
  {
    match v
    case Obj(fields) =>
      forall k | k in fields ensures Redacted(Redacted(fields[k])) == Redacted(fields[k]) {
        RedactingTwice(fields[k]);
      }
    case Arr(items) =>
      forall i | 0 <= i < |items| ensures Redacted(Redacted(items[i])) == Redacted(items[i]) {
        RedactingTwice(items[i]);
      }
      assert Redacted(Redacted(v)).items == Redacted(v).items;
    case _ =>
  }

  // --------------------------------------------------------- non-interference

  /** v and w look the same along every public path. */
  ghost predicate AgreeInPublic(v: Value, w: Value) {
    forall path | Public(path) :: FaceAt(v, path) == FaceAt(w, path)
  }

  /** Redaction forgets the values of sensitive fields and nothing else: two values
      redact to the same one exactly when every public path shows the same in both. */
  lemma RedactedSameIff(v: Value, w: Value)
    ensures Redacted(v) == Redacted(w) <==> AgreeInPublic(v, w)
  {
    if Redacted(v) == Redacted(w) {
      forall path | Public(path) ensures FaceAt(v, path) == FaceAt(w, path) {
        FaceIsKept(v, path);
        FaceIsKept(w, path);
      }
    }
    if AgreeInPublic(v, w) {
      AgreementDecides(v, w);
    }
  }

  lemma FaceIsKept(v: Value, path: Path)
    requires Public(path)
    ensures FaceAt(Redacted(v), path) == FaceAt(v, path)
  {
    PublicPathsAreKept(v, path);
    match At(v, path)
    case Some(w) => RootIsKept(w);
    case None =>
  }

  lemma RootIsKept(v: Value)
    ensures FaceOf(Redacted(v)) == FaceOf(v)
  {
    if v.Obj? {
      assert Redacted(v).fields.Keys == v.fields.Keys;
    }
  }

  lemma {:induction false} AgreementDecides(v: Value, w: Value)
    requires AgreeInPublic(v, w)
    ensures Redacted(v) == Redacted(w)
    decreases v
  {
    assert FaceAt(v, []) == FaceAt(w, []);
    match v
    case Obj(fields) =>
      forall k | k in fields && !Sensitive(k) ensures Redacted(fields[k]) == Redacted(w.fields[k]) {
        AgreeInside(v, w, Field(k));
        AgreementDecides(fields[k], w.fields[k]);
      }
      assert Redacted(v).fields == Redacted(w).fields;
    case Arr(items) =>
      forall i | 0 <= i < |items| ensures Redacted(items[i]) == Redacted(w.items[i]) {
        AgreeInside(v, w, Item(i));
        AgreementDecides(items[i], w.items[i]);
      }
      assert Redacted(v).items == Redacted(w).items;
    case _ =>
  }

  /** Agreement passes to what lies behind a public hop. */
  lemma AgreeInside(v: Value, w: Value, h: Hop)
    requires AgreeInPublic(v, w) && !SensitiveHop(h) && At(v, [h]).Some? && At(w, [h]).Some?
    ensures AgreeInPublic(At(v, [h]).value, At(w, [h]).value)
  {
    forall path | Public(path)
      ensures FaceAt(At(v, [h]).value, path) == FaceAt(At(w, [h]).value, path)
    {
      Behind(v, h, path);
      Behind(w, h, path);
      assert FaceAt(v, [h] + path) == FaceAt(w, [h] + path);
    }
  }

  lemma Behind(v: Value, h: Hop, path: Path)
    requires At(v, [h]).Some?
    ensures At(v, [h] + path) == At(At(v, [h]).value, path)
  {
    match (v, h)
    case (Obj(fields), Field(key)) => AtField(fields, key, path);
    case (Arr(items), Item(index)) => AtItem(items, index, path);
  }
}
