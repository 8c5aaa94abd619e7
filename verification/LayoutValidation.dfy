/**
 * Validating the pilgrim app's layout (backend/src/modules/app-config/app-config.validation.ts).
 * A JSON number is its text as JSON.stringify writes it.
 */
module LayoutValidation {
  import opened Wrappers

  datatype Json =
    | Null | Bool(value: bool) | Number(text: string) | Str(s: string) | Arr(items: seq<Json>) | Obj(fields: seq<Field>)

  datatype Field = Field(key: string, value: Json)

  datatype Section = Section(id: string, kind: string, enabled: bool, props: Json)

  datatype Theme = Theme(accent: string, background: string, ink: string, primary: string, surface: string)

  datatype Layout = Layout(sections: seq<Section>, theme: Theme)

  datatype Error =
    | BadVersion | NoTheme | BadColor(key: string) | NoHome | BadSectionCount
    | NotAnObject | BadId | DuplicateId | BadType | BadEnabled | NoProps | PropsTooLarge | InsecureUrl(path: string)

  const MAX_SECTIONS := 30
  const MAX_PROPS_BYTES := 8 * 1024
  const SECTION_TYPES := ["BANNERS", "HERO", "INFO_STRIP", "LODGE_RAIL", "NOTICE", "SEARCH", "TRUST_POINTS"]

  // ---------- Patterns ----------

  function Fold(c: char): char {
    if 'A' <= c <= 'Z' then (c as int + 32) as char else if c == '\U{017F}' then 's' else c
  }

  function FoldAll(s: string): string {
    seq(|s|, i requires 0 <= i < |s| => Fold(s[i]))
  }

  /** The key ends in "url" in any case. */
  predicate UrlKey(key: string) {
    |key| >= 3 && FoldAll(key[|key| - 3..]) == "url"
  }

  /** The text starts with "https://" in any case; by Unicode folding the long s counts as an s. */
  predicate Https(s: string) {
    |s| >= 8 && FoldAll(s[..8]) == "https://"
  }

  predicate Word(s: string) {
    s != "" && forall i | 0 <= i < |s| :: 'a' <= s[i] <= 'z' || '0' <= s[i] <= '9'
  }

  function Joined(words: seq<string>): string {
    if words == [] then "" else if |words| == 1 then words[0] else words[0] + "-" + Joined(words[1..])
  }

  /** The longest run of word characters the text starts with. */
  function WordLength(s: string): (n: nat)
    ensures n <= |s| && (n > 0 ==> Word(s[..n]))
    ensures n < |s| ==> !('a' <= s[n] <= 'z' || '0' <= s[n] <= '9')
  {
    if s == "" || !('a' <= s[0] <= 'z' || '0' <= s[0] <= '9') then 0 else 1 + WordLength(s[1..])
  }

  /** The pattern of section ids: a word, then any number of hyphens each followed by a word. */
  predicate MatchesId(s: string)
    decreases |s|
  {
    var n := WordLength(s);
    n > 0 && (n == |s| || (s[n] == '-' && MatchesId(s[n + 1..])))
  }

  predicate Words(words: seq<string>) {
    words != [] && forall i | 0 <= i < |words| :: Word(words[i])
  }

  lemma {:induction false} WordLengthOf(word: string, rest: string)
    requires (word == "" || Word(word)) && (rest == "" || rest[0] == '-')
    ensures WordLength(word + rest) == |word|
  {
    if word == "" {
      assert word + rest == rest;
    } else {
      WordLengthOf(word[1..], rest);
      assert (word + rest)[1..] == word[1..] + rest;
    }
  }

  lemma {:induction false} IdOfWords(words: seq<string>)
    requires Words(words)
    ensures MatchesId(Joined(words))
    decreases |words|
  {
    var s := Joined(words);
    if |words| == 1 {
      WordLengthOf(words[0], "");
      assert words[0] + "" == s;
    } else {
      IdOfWords(words[1..]);
      var rest := "-" + Joined(words[1..]);
      WordLengthOf(words[0], rest);
      assert s == words[0] + rest;
      assert s[|words[0]| + 1..] == Joined(words[1..]);
    }
  }

  lemma {:induction false} WordsOfId(s: string) returns (words: seq<string>)
    requires MatchesId(s)
    ensures Words(words) && Joined(words) == s
    decreases |s|
  {
    var n := WordLength(s);
    if n == |s| {
      words := [s];
      assert s[..n] == s;
    } else {
      var rest := WordsOfId(s[n + 1..]);
      words := [s[..n]] + rest;
      assert words[1..] == rest;
      assert s == s[..n] + "-" + s[n + 1..];
    }
  }

  /** A text matches the id pattern exactly when it is lower-case words joined by single hyphens. */
  lemma IdsAreHyphenatedWords(s: string)
    ensures MatchesId(s) <==> exists words :: Words(words) && Joined(words) == s
  {
    if MatchesId(s) {
      var words := WordsOfId(s);
    }
    if words :| Words(words) && Joined(words) == s {
      IdOfWords(words);
    }
  }

  predicate SectionId(s: string) {
    MatchesId(s) && |s| <= 40
  }

  predicate HexColor(s: string) {
    |s| == 7 && s[0] == '#' && forall i | 1 <= i < 7 :: '0' <= s[i] <= '9' || 'a' <= s[i] <= 'f' || 'A' <= s[i] <= 'F'
  }

  // ---------- The size of the props ----------

  /** UTF-8 bytes of one character inside a JSON string. */
  function CharBytes(c: char): nat {
    var n := c as int;
    if c == '\"' || c == '\\' || n in {8, 9, 10, 12, 13} then 2
    else if n < 32 then 6
    else if n < 0x80 then 1
    else if n < 0x800 then 2
    else if n < 0x10000 then 3
    else 4
  }

  function TextBytes(s: string): nat {
    if s == "" then 0 else CharBytes(s[0]) + TextBytes(s[1..])
  }

  function Bytes(v: Json): nat {
    match v
    case Null => 4
    case Bool(b) => if b then 4 else 5
    case Number(text) => |text|
    case Str(s) => 2 + TextBytes(s)
    case Arr(items) => 2 + (if items == [] then 0 else |items| - 1) + ItemBytes(items)
    case Obj(fields) => 2 + (if fields == [] then 0 else |fields| - 1) + FieldBytes(fields)
  }

  function ItemBytes(items: seq<Json>): nat {
    if items == [] then 0 else Bytes(items[0]) + ItemBytes(items[1..])
  }

  function FieldBytes(fields: seq<Field>): nat {
    if fields == [] then 0 else 3 + TextBytes(fields[0].key) + Bytes(fields[0].value) + FieldBytes(fields[1..])
  }

  // ---------- The size is that of the text ----------

  /** Bytes of a text in UTF-8. */
  function Utf8Size(s: string): nat {
    if s == "" then 0 else Utf8Size(s[..|s| - 1]) + Utf8Bytes(s[|s| - 1] as int)
  }

  /** Bytes of a code point in UTF-8. */
  function Utf8Bytes(n: nat): nat {
    if n <= 0x7F then 1 else if n <= 0x7FF then 2 else if n <= 0xFFFF then 3 else 4
  }

  const HEX := "0123456789abcdef"

  /** A character as it is written inside a JSON string. */
  function Escaped(c: char): string {
    match c as int
    case 34 => "\\\""
    case 92 => "\\\\"
    case 8 => "\\b"
    case 9 => "\\t"
    case 10 => "\\n"
    case 12 => "\\f"
    case 13 => "\\r"
    case n => if n < 32 then "\\u00" + [HEX[n / 16], HEX[n % 16]] else [c]
  }

  function EscapedText(s: string): string {
    if s == "" then "" else Escaped(s[0]) + EscapedText(s[1..])
  }

  function Quoted(s: string): string {
    "\"" + EscapedText(s) + "\""
  }

  /** A value as JSON.stringify writes it. */
  function Stringify(v: Json): string {
    match v
    case Null => "null"
    case Bool(b) => if b then "true" else "false"
    case Number(text) => text
    case Str(s) => Quoted(s)
    case Arr(items) => "[" + ItemsText(items) + "]"
    case Obj(fields) => "{" + FieldsText(fields) + "}"
  }

  function ItemsText(items: seq<Json>): string {
    if items == [] then ""
    else Stringify(items[0]) + (if |items| == 1 then "" else ",") + ItemsText(items[1..])
  }

  function FieldsText(fields: seq<Field>): string {
    if fields == [] then ""
    else
      Quoted(fields[0].key) + ":" + Stringify(fields[0].value) + (if |fields| == 1 then "" else ",")
      + FieldsText(fields[1..])
  }

  lemma {:induction false} SizeAdds(a: string, b: string)
    ensures Utf8Size(a + b) == Utf8Size(a) + Utf8Size(b)
  {
    if b == "" {
      assert a + b == a;
    } else {
      SizeAdds(a, b[..|b| - 1]);
      assert (a + b)[..|a + b| - 1] == a + b[..|b| - 1];
    }
  }

  predicate Ascii(s: string) {
    forall i | 0 <= i < |s| :: s[i] as int <= 0x7F
  }

  lemma {:induction false} AsciiSize(s: string)
    requires Ascii(s)
    ensures Utf8Size(s) == |s|
  {
    if s != "" {
      AsciiSize(s[..|s| - 1]);
    }
  }

  lemma EscapedSize(c: char)
    ensures Utf8Size(Escaped(c)) == CharBytes(c)
  {
    var s := Escaped(c);
    if s == [c] {
      assert s[..0] == "";
    } else {
      AsciiSize(s);
    }
  }

  lemma {:induction false} EscapedTextSize(s: string)
    ensures Utf8Size(EscapedText(s)) == TextBytes(s)
  {
    if s != "" {
      EscapedTextSize(s[1..]);
      EscapedSize(s[0]);
      SizeAdds(Escaped(s[0]), EscapedText(s[1..]));
    }
  }

  lemma QuotedSize(s: string)
    ensures Utf8Size(Quoted(s)) == 2 + TextBytes(s)
  {
    EscapedTextSize(s);
    AsciiSize("\"");
    SizeAdds("\"", EscapedText(s));
    SizeAdds("\"" + EscapedText(s), "\"");
  }

  /** Every number in the value is written in ASCII, as JSON.stringify does. */
  predicate AsciiNumbers(v: Json) {
    match v
    case Number(text) => Ascii(text)
    case Arr(items) => forall i | 0 <= i < |items| :: AsciiNumbers(items[i])
    case Obj(fields) => forall i | 0 <= i < |fields| :: AsciiNumbers(fields[i].value)
    case _ => true
  }

  /** The size that is compared with the limit is that of the JSON text in UTF-8. */
  lemma {:induction false} BytesOfText(v: Json)
    requires AsciiNumbers(v)
    ensures Bytes(v) == Utf8Size(Stringify(v))
    decreases v
  {
    match v
    case Null => AsciiSize("null");
    case Bool(b) => AsciiSize(if b then "true" else "false");
    case Number(text) => AsciiSize(text);
    case Str(s) => QuotedSize(s);
    case Arr(items) =>
      ItemsSize(items);
      Wrapped("[", ItemsText(items), "]");
    case Obj(fields) =>
      FieldsSize(fields);
      Wrapped("{", FieldsText(fields), "}");
  }

  lemma Wrapped(open: string, text: string, close: string)
    requires Ascii(open) && Ascii(close)
    ensures Utf8Size(open + text + close) == |open| + Utf8Size(text) + |close|
  {
    AsciiSize(open);
    AsciiSize(close);
    SizeAdds(open, text);
    SizeAdds(open + text, close);
  }

  function Commas(n: nat): nat {
    if n == 0 then 0 else n - 1
  }

  lemma {:induction false} ItemsSize(items: seq<Json>)
    requires forall i | 0 <= i < |items| :: AsciiNumbers(items[i])
    ensures Utf8Size(ItemsText(items)) == Commas(|items|) + ItemBytes(items)
    decreases items
  {
    hide Bytes, Stringify, AsciiNumbers;
    if items != [] {
      var comma := if |items| == 1 then "" else ",";
      BytesOfText(items[0]);
      ItemsSize(items[1..]);
      AsciiSize(comma);
      SizeAdds(Stringify(items[0]), comma);
      SizeAdds(Stringify(items[0]) + comma, ItemsText(items[1..]));
    }
  }

  lemma {:induction false} FieldsSize(fields: seq<Field>)
    requires forall i | 0 <= i < |fields| :: AsciiNumbers(fields[i].value)
    ensures Utf8Size(FieldsText(fields)) == Commas(|fields|) + FieldBytes(fields)
    decreases fields
  {
    hide Bytes, Stringify, AsciiNumbers, Quoted, TextBytes;
    if fields != [] {
      var comma, key, text := if |fields| == 1 then "" else ",", Quoted(fields[0].key), Stringify(fields[0].value);
      BytesOfText(fields[0].value);
      FieldsSize(fields[1..]);
      QuotedSize(fields[0].key);
      AsciiSize(comma);
      AsciiSize(":");
      SizeAdds(key, ":");
      SizeAdds(key + ":", text);
      SizeAdds(key + ":" + text, comma);
      SizeAdds(key + ":" + text + comma, FieldsText(fields[1..]));
    }
  }

  // ---------- Secure addresses at any depth ----------

  predicate Acceptable(v: Json) {
    v.Null? || (v.Str? && (v.s == "" || Https(v.s)))
  }

  predicate SecureField(f: Field) {
    UrlKey(f.key) ==> Acceptable(f.value)
  }

  /** The part of a value that a path of positions leads to. */
  function At(v: Json, path: seq<nat>): Option<Json>
    decreases |path|
  {
    if path == [] then Some(v)
    else if v.Arr? && path[0] < |v.items| then At(v.items[path[0]], path[1..])
    else if v.Obj? && path[0] < |v.fields| then At(v.fields[path[0]].value, path[1..])
    else None
  }

  ghost predicate SecureAt(v: Json, path: seq<nat>) {
    var part := At(v, path);
    part.Some? && part.value.Obj? ==> forall i | 0 <= i < |part.value.fields| :: SecureField(part.value.fields[i])
  }

  /** Every address, in whatever object or list it is nested, is null, empty or https. */
  ghost predicate Secure(v: Json) {
    forall path :: SecureAt(v, path)
  }

  function Decimal(n: nat): string {
    if n < 10 then [('0' as int + n) as char] else Decimal(n / 10) + [('0' as int + n % 10) as char]
  }

  function ItemPath(path: string, i: nat): string {
    path + "[" + Decimal(i) + "]"
  }

  /** The first insecure address from item i on. */
  function FirstInItems(items: seq<Json>, i: nat, path: string): Option<string>
    requires i <= |items|
    decreases items, |items| - i
  {
    if i == |items| then None
    else
      var here := FirstInsecure(items[i], ItemPath(path, i));
      if here.Some? then here else FirstInItems(items, i + 1, path)
  }

  function FirstInFields(fields: seq<Field>, i: nat, path: string): Option<string>
    requires i <= |fields|
    decreases fields, |fields| - i
  {
    if i == |fields| then None
    else if !SecureField(fields[i]) then Some(path + "." + fields[i].key)
    else
      var here := FirstInsecure(fields[i].value, path + "." + fields[i].key);
      if here.Some? then here else FirstInFields(fields, i + 1, path)
  }

  /** The name of the first insecure address, in the order the values are visited. */
  function FirstInsecure(v: Json, path: string): Option<string>
    decreases v
  {
    match v
    case Arr(items) => FirstInItems(items, 0, path)
    case Obj(fields) => FirstInFields(fields, 0, path)
    case _ => None
  }

  lemma SecurePart(v: Json, path: seq<nat>, i: nat)
    requires Secure(v) && ((v.Arr? && i < |v.items|) || (v.Obj? && i < |v.fields|))
    ensures Secure(if v.Arr? then v.items[i] else v.fields[i].value)
  {
    var part := if v.Arr? then v.items[i] else v.fields[i].value;
    forall p: seq<nat> ensures SecureAt(part, p) {
      assert SecureAt(v, [i] + p);
      assert ([i] + p)[1..] == p;
    }
  }

  lemma {:induction false} ItemsSecure(items: seq<Json>, i: nat, path: string)
    requires i <= |items|
    ensures FirstInItems(items, i, path).None? <==> forall k | i <= k < |items| :: Secure(items[k])
    decreases items, |items| - i
  {
    if i < |items| {
      NoneIsSecure(items[i], ItemPath(path, i));
      ItemsSecure(items, i + 1, path);
    }
  }

  lemma {:induction false} FieldsSecure(fields: seq<Field>, i: nat, path: string)
    requires i <= |fields|
    ensures FirstInFields(fields, i, path).None?
            <==> forall k | i <= k < |fields| :: SecureField(fields[k]) && Secure(fields[k].value)
    decreases fields, |fields| - i
  {
    if i < |fields| {
      NoneIsSecure(fields[i].value, path + "." + fields[i].key);
      FieldsSecure(fields, i + 1, path);
    }
  }

  /** The check finds nothing exactly when every address at every depth is secure. */
  lemma {:induction false} NoneIsSecure(v: Json, path: string)
    ensures FirstInsecure(v, path).None? <==> Secure(v)
    decreases v
  {
    assert SecureAt(v, []) && v.Obj? ==> forall i | 0 <= i < |v.fields| :: SecureField(v.fields[i]);
    match v
    case Arr(items) =>
      ItemsSecure(items, 0, path);
      if Secure(v) {
        forall i | 0 <= i < |items| ensures Secure(items[i]) { SecurePart(v, [], i); }
      } else {
        InsecurePart(v);
      }
    case Obj(fields) =>
      FieldsSecure(fields, 0, path);
      if Secure(v) {
        forall i | 0 <= i < |fields| ensures Secure(fields[i].value) { SecurePart(v, [], i); }
      } else {
        InsecurePart(v);
      }
    case _ =>
  }

  lemma InsecurePart(v: Json)
    requires !Secure(v)
    ensures v.Arr? || v.Obj?
    ensures v.Arr? ==> exists i :: 0 <= i < |v.items| && !Secure(v.items[i])
    ensures v.Obj? ==> exists i :: 0 <= i < |v.fields| && !(SecureField(v.fields[i]) && Secure(v.fields[i].value))
  {
    var path :| !SecureAt(v, path);
    if path != [] {
      var part := if v.Arr? then v.items[path[0]] else v.fields[path[0]].value;
      assert !SecureAt(part, path[1..]);
    }
  }

  // ---------- What is reported ----------

  /** The place, given by positions from the value down, is that of an address which is not secure. */
  ghost predicate Insecure(v: Json, place: seq<nat>)
    decreases |place|
  {
    if place == [] then false
    else if v.Obj? && place[0] < |v.fields| then
      if |place| == 1 then InsecureField(v.fields[place[0]]) else Insecure(v.fields[place[0]].value, place[1..])
    else if v.Arr? && place[0] < |v.items| then Insecure(v.items[place[0]], place[1..])
    else false
  }

  /** The key ends in "url" in any case; the value is neither null nor empty nor starts with "https://". */
  ghost predicate InsecureField(f: Field) {
    && (exists head, u, r, l :: f.key == head + [u, r, l] && u in "uU" && r in "rR" && l in "lL")
    && !f.value.Null? && f.value != Str("")
    && !(f.value.Str? && StartsSecurely(f.value.s))
  }

  /** How the error message names the place. */
  ghost function NameOf(v: Json, place: seq<nat>, path: string): string
    requires Insecure(v, place)
    decreases |place|
  {
    if v.Arr? then NameOf(v.items[place[0]], place[1..], path + "[" + Decimal(place[0]) + "]")
    else
      var here := path + "." + v.fields[place[0]].key;
      if |place| == 1 then here else NameOf(v.fields[place[0]].value, place[1..], here)
  }

  /** The first place is visited before the other: it is higher up on the same way down, or on an earlier one. */
  predicate Before(p: seq<nat>, q: seq<nat>)
    decreases |p|
  {
    q != [] && (p == [] || p[0] < q[0] || (p[0] == q[0] && Before(p[1..], q[1..])))
  }

  lemma EndsInUrl(key: string)
    ensures UrlKey(key) <==> exists head, u, r, l :: key == head + [u, r, l] && u in "uU" && r in "rR" && l in "lL"
  {
    if UrlKey(key) {
      var n := |key| - 3;
      var tail := key[n..];
      assert FoldAll(tail)[0] == 'u' && FoldAll(tail)[1] == 'r' && FoldAll(tail)[2] == 'l';
      assert key == key[..n] + [tail[0], tail[1], tail[2]];
      assert tail[0] in "uU" && tail[1] in "rR" && tail[2] in "lL";
    }
    if head, u, r, l :| key == head + [u, r, l] && u in "uU" && r in "rR" && l in "lL" {
      assert key[|key| - 3..] == [u, r, l];
      assert FoldAll([u, r, l]) == "url";
    }
  }

  ghost predicate StartsSecurely(text: string) {
    exists h, t1, t2, p, s, tail ::
      && text == [h, t1, t2, p, s] + "://" + tail
      && h in "hH" && t1 in "tT" && t2 in "tT" && p in "pP" && s in "sS\U{017F}"
  }

  lemma HttpsStarts(text: string)
    requires Https(text)
    ensures StartsSecurely(text)
  {
    var f := FoldAll(text[..8]);
    assert f[0] == 'h' && f[1] == 't' && f[2] == 't' && f[3] == 'p' && f[4] == 's';
    assert f[5] == ':' && f[6] == '/' && f[7] == '/';
    assert text == [text[0], text[1], text[2], text[3], text[4]] + "://" + text[8..];
  }

  lemma FoldedStart(start: string)
    requires |start| == 8 && start[0] in "hH" && start[1] in "tT" && start[2] in "tT" && start[3] in "pP"
    requires start[4] in "sS\U{017F}" && start[5] == ':' && start[6] == '/' && start[7] == '/'
    ensures FoldAll(start) == "https://"
  {
  }

  lemma StartsHttps(text: string)
    requires StartsSecurely(text)
    ensures Https(text)
  {
    hide FoldAll;
    var h, t1, t2, p, s, tail :|
      && text == [h, t1, t2, p, s] + "://" + tail
      && h in "hH" && t1 in "tT" && t2 in "tT" && p in "pP" && s in "sS\U{017F}";
    FoldedStart(text[..8]);
  }

  lemma StartsWithHttps(text: string)
    ensures Https(text) <==> StartsSecurely(text)
  {
    hide Https, StartsSecurely;
    if Https(text) {
      HttpsStarts(text);
    }
    if StartsSecurely(text) {
      StartsHttps(text);
    }
  }

  lemma InsecureFieldExactly(f: Field)
    ensures InsecureField(f) <==> !SecureField(f)
  {
    hide UrlKey, Https;
    EndsInUrl(f.key);
    if f.value.Str? {
      StartsWithHttps(f.value.s);
    }
  }

  lemma {:induction false} InsecurePlace(v: Json, place: seq<nat>)
    requires Insecure(v, place)
    ensures !Secure(v)
    decreases |place|
  {
    hide InsecureField;
    var i := place[0];
    if v.Obj? && |place| == 1 {
      InsecureFieldExactly(v.fields[i]);
      assert !SecureAt(v, []);
    } else {
      InsecurePlace(if v.Arr? then v.items[i] else v.fields[i].value, place[1..]);
      if Secure(v) {
        SecurePart(v, [], i);
      }
    }
  }

  /** Of the places at or after position i of a list, the given one is insecure and the first. */
  ghost predicate FirstFrom(v: Json, i: nat, place: seq<nat>) {
    && Insecure(v, place) && i <= place[0]
    && forall q | Insecure(v, q) && i <= q[0] :: q == place || Before(place, q)
  }

  lemma {:induction false} FirstItem(items: seq<Json>, i: nat, path: string) returns (place: seq<nat>)
    requires i <= |items| && FirstInItems(items, i, path).Some?
    ensures FirstFrom(Arr(items), i, place)
    ensures FirstInItems(items, i, path) == Some(NameOf(Arr(items), place, path))
    decreases items, |items| - i
  {
    hide InsecureField, Secure;
    var v := Arr(items);
    var here := FirstInsecure(items[i], ItemPath(path, i));
    NoneIsSecure(items[i], ItemPath(path, i));
    if here.Some? {
      var p := FirstReported(items[i], ItemPath(path, i));
      place := [i] + p;
      assert place[1..] == p;
      forall q | Insecure(v, q) && i <= q[0] ensures q == place || Before(place, q) {
        assert q == [q[0]] + q[1..];
      }
    } else {
      place := FirstItem(items, i + 1, path);
      forall q | Insecure(v, q) && i <= q[0] ensures i + 1 <= q[0] {
        if q[0] == i {
          InsecurePlace(items[i], q[1..]);
        }
      }
    }
  }

  lemma {:induction false} FirstField(fields: seq<Field>, i: nat, path: string) returns (place: seq<nat>)
    requires i <= |fields| && FirstInFields(fields, i, path).Some?
    ensures FirstFrom(Obj(fields), i, place)
    ensures FirstInFields(fields, i, path) == Some(NameOf(Obj(fields), place, path))
    decreases fields, |fields| - i
  {
    hide InsecureField, Secure;
    var v, name := Obj(fields), path + "." + fields[i].key;
    InsecureFieldExactly(fields[i]);
    NoneIsSecure(fields[i].value, name);
    if !SecureField(fields[i]) {
      place := [i];
      forall q | Insecure(v, q) && i <= q[0] ensures q == place || Before(place, q) {
        assert q == [q[0]] + q[1..];
        assert |q| > 1 ==> Before([], q[1..]);
      }
    } else if FirstInsecure(fields[i].value, name).Some? {
      var p := FirstReported(fields[i].value, name);
      place := [i] + p;
      assert place[1..] == p;
      forall q | Insecure(v, q) && i <= q[0] ensures q == place || Before(place, q) {
        assert q == [q[0]] + q[1..];
      }
    } else {
      place := FirstField(fields, i + 1, path);
      forall q | Insecure(v, q) && i <= q[0] ensures i + 1 <= q[0] {
        if q[0] == i && |q| > 1 {
          InsecurePlace(fields[i].value, q[1..]);
        }
      }
    }
  }

  /** What is reported names the first insecure address there is, from the top and from the left. */
  lemma {:induction false} FirstReported(v: Json, path: string) returns (place: seq<nat>)
    requires FirstInsecure(v, path).Some?
    ensures Insecure(v, place) && FirstInsecure(v, path) == Some(NameOf(v, place, path))
    ensures forall q | Insecure(v, q) :: q == place || Before(place, q)
    decreases v
  {
    hide InsecureField;
    if v.Arr? {
      place := FirstItem(v.items, 0, path);
    } else {
      place := FirstField(v.fields, 0, path);
    }
  }

  /** The check as it runs: the first insecure address, if any. */
  method AssertSecureUrls(value: Json, path: string) returns (bad: Option<string>)
    ensures bad == FirstInsecure(value, path)
    ensures bad.None? <==> Secure(value)
    decreases value
  {
    NoneIsSecure(value, path);
    bad := None;
    if value.Arr? {
      for i := 0 to |value.items|
        invariant FirstInItems(value.items, 0, path) == FirstInItems(value.items, i, path)
      {
        bad := AssertSecureUrls(value.items[i], ItemPath(path, i));
        if bad.Some? {
          return;
        }
      }
      return None;
    }
    if !value.Obj? {
      return;
    }
    for i := 0 to |value.fields|
      invariant FirstInFields(value.fields, 0, path) == FirstInFields(value.fields, i, path)
    {
      var key, entry := value.fields[i].key, value.fields[i].value;
      if UrlKey(key) && !entry.Null? && entry != Str("") {
        if !entry.Str? || !Https(entry.s) {
          return Some(path + "." + key);
        }
      }
      bad := AssertSecureUrls(entry, path + "." + key);
      if bad.Some? {
        return;
      }
    }
    return None;
  }

  // ---------- Sections ----------

  /** A property of a value; None where the value is no object or lacks it. */
  function Get(v: Json, key: string): Option<Json> {
    if v.Obj? then GetField(v.fields, key) else None
  }

  function GetField(fields: seq<Field>, key: string): Option<Json> {
    if fields == [] then None else if fields[0].key == key then Some(fields[0].value) else GetField(fields[1..], key)
  }

  function Ids(sections: seq<Section>): set<string> {
    set i | 0 <= i < |sections| :: sections[i].id
  }

  lemma IdsAppended(sections: seq<Section>, s: Section)
    ensures Ids(sections + [s]) == Ids(sections) + {s.id}
  {
    var more := sections + [s];
    forall id | id in Ids(sections) + {s.id} ensures id in Ids(more) {
      if id == s.id {
        assert more[|sections|] == s;
      } else {
        var i :| 0 <= i < |sections| && sections[i].id == id;
        assert more[i] == sections[i];
      }
    }
  }

  ghost function CheckSection(raw: Json, seen: set<string>): Result<Section, Error> {
    var id, kind, enabled, props := Get(raw, "id"), Get(raw, "type"), Get(raw, "enabled"), Get(raw, "props");
    if !raw.Obj? then Err(NotAnObject)
    else if id.None? || !id.value.Str? || !SectionId(id.value.s) then Err(BadId)
    else if id.value.s in seen then Err(DuplicateId)
    else if kind.None? || !kind.value.Str? || kind.value.s !in SECTION_TYPES then Err(BadType)
    else if enabled.None? || !enabled.value.Bool? then Err(BadEnabled)
    else if props.None? || !props.value.Obj? then Err(NoProps)
    else if Bytes(props.value) > MAX_PROPS_BYTES then Err(PropsTooLarge)
    else if FirstInsecure(props.value, id.value.s).Some? then
      Err(InsecureUrl(FirstInsecure(props.value, id.value.s).value))
    else Ok(Section(id.value.s, kind.value.s, enabled.value.value, props.value))
  }

  ghost function CheckSections(raws: seq<Json>): Result<seq<Section>, Error> {
    if raws == [] then Ok([])
    else
      match CheckSections(raws[..|raws| - 1])
      case Err(e) => Err(e)
      case Ok(done) =>
        match CheckSection(raws[|raws| - 1], Ids(done))
        case Err(e) => Err(e)
        case Ok(s) => Ok(done + [s])
  }

  ghost predicate LawfulSection(s: Section) {
    && SectionId(s.id) && s.kind in SECTION_TYPES
    && s.props.Obj? && Bytes(s.props) <= MAX_PROPS_BYTES && Secure(s.props)
  }

  ghost predicate DistinctIds(sections: seq<Section>) {
    forall i, j | 0 <= i < j < |sections| :: sections[i].id != sections[j].id
  }

  ghost predicate LawfulSections(sections: seq<Section>) {
    DistinctIds(sections) && forall i | 0 <= i < |sections| :: LawfulSection(sections[i])
  }

  /** The raw value is an object with the section's four properties, whatever else it has. */
  predicate CarriesSection(raw: Json, s: Section) {
    && raw.Obj? && Get(raw, "id") == Some(Str(s.id)) && Get(raw, "type") == Some(Str(s.kind))
    && Get(raw, "enabled") == Some(Bool(s.enabled)) && Get(raw, "props") == Some(s.props)
  }

  ghost predicate CarriesSections(raws: seq<Json>, sections: seq<Section>) {
    |raws| == |sections| && forall i | 0 <= i < |raws| :: CarriesSection(raws[i], sections[i])
  }

  lemma SectionAccepted(raw: Json, seen: set<string>, s: Section)
    ensures CheckSection(raw, seen) == Ok(s) <==> CarriesSection(raw, s) && LawfulSection(s) && s.id !in seen
  {
    hide SectionId, Secure, Bytes, FirstInsecure;
    var id, props := Get(raw, "id"), Get(raw, "props");
    if id.Some? && id.value.Str? && props.Some? {
      NoneIsSecure(props.value, id.value.s);
    }
  }

  lemma {:induction false} SectionsAccepted(raws: seq<Json>, sections: seq<Section>)
    ensures CheckSections(raws) == Ok(sections) <==> CarriesSections(raws, sections) && LawfulSections(sections)
    decreases |raws|
  {
    hide CheckSection, CarriesSection, LawfulSection;
    if raws == [] {
    } else {
      var n := |raws| - 1;
      var before := CheckSections(raws[..n]);
      if CarriesSections(raws, sections) && LawfulSections(sections) {
        SectionsAccepted(raws[..n], sections[..n]);
        SectionAccepted(raws[n], Ids(sections[..n]), sections[n]);
        assert sections == sections[..n] + [sections[n]];
      }
      if before.Ok? && CheckSections(raws) == Ok(sections) {
        SectionsAccepted(raws[..n], before.value);
        SectionAccepted(raws[n], Ids(before.value), sections[n]);
        assert sections == before.value + [sections[n]];
        forall i, j | 0 <= i < j < |sections| ensures sections[i].id != sections[j].id {
          assert j == n ==> sections[i].id in Ids(before.value);
        }
      }
    }
  }

  lemma {:induction false} ErrorStays(raws: seq<Json>, n: nat)
    requires n <= |raws| && CheckSections(raws[..n]).Err?
    ensures CheckSections(raws) == CheckSections(raws[..n])
    decreases |raws|
  {
    if n < |raws| {
      assert raws[..|raws| - 1][..n] == raws[..n];
      ErrorStays(raws[..|raws| - 1], n);
    } else {
      assert raws[..n] == raws;
    }
  }

  method ValidateSection(raw: Json, seen: set<string>) returns (r: Result<Section, Error>)
    ensures r == CheckSection(raw, seen)
  {
    if !raw.Obj? {
      return Err(NotAnObject);
    }
    var id, kind, enabled, props := Get(raw, "id"), Get(raw, "type"), Get(raw, "enabled"), Get(raw, "props");
    if id.None? || !id.value.Str? || !MatchesId(id.value.s) || |id.value.s| > 40 {
      return Err(BadId);
    }
    if id.value.s in seen {
      return Err(DuplicateId);
    }
    if kind.None? || !kind.value.Str? || kind.value.s !in SECTION_TYPES {
      return Err(BadType);
    }
    if enabled.None? || !enabled.value.Bool? {
      return Err(BadEnabled);
    }
    if props.None? || !props.value.Obj? {
      return Err(NoProps);
    }
    if Bytes(props.value) > MAX_PROPS_BYTES {
      return Err(PropsTooLarge);
    }
    var bad := AssertSecureUrls(props.value, id.value.s);
    if bad.Some? {
      return Err(InsecureUrl(bad.value));
    }
    return Ok(Section(id.value.s, kind.value.s, enabled.value.value, props.value));
  }

  // ---------- The layout ----------

  const THEME_KEYS := ["accent", "background", "ink", "primary", "surface"]

  predicate IsColor(v: Option<Json>) {
    v.Some? && v.value.Str? && HexColor(v.value.s)
  }

  /** The first theme key from k on whose value is no colour. */
  function BadColorKey(theme: Json, k: nat): Option<string>
    requires k <= |THEME_KEYS|
    decreases |THEME_KEYS| - k
  {
    if k == |THEME_KEYS| then None
    else if !IsColor(Get(theme, THEME_KEYS[k])) then Some(THEME_KEYS[k])
    else BadColorKey(theme, k + 1)
  }

  function Color(theme: Json, key: string): string {
    var v := Get(theme, key);
    if IsColor(v) then v.value.s else ""
  }

  function ThemeOf(theme: Json): Theme {
    Theme(Color(theme, "accent"), Color(theme, "background"), Color(theme, "ink"), Color(theme, "primary"),
          Color(theme, "surface"))
  }

  ghost function Validate(raw: Json): Result<Layout, Error> {
    var theme, screens := Get(raw, "theme"), Get(raw, "screens");
    if !raw.Obj? || Get(raw, "version") != Some(Number("1")) then Err(BadVersion)
    else if theme.None? || !theme.value.Obj? then Err(NoTheme)
    else if BadColorKey(theme.value, 0).Some? then Err(BadColor(BadColorKey(theme.value, 0).value))
    else if screens.None? || !screens.value.Obj? then Err(NoHome)
    else
      var home := Get(screens.value, "home");
      if home.None? || !home.value.Obj? then Err(NoHome)
      else
        var sections := Get(home.value, "sections");
        if sections.None? || !sections.value.Arr? || !(1 <= |sections.value.items| <= MAX_SECTIONS) then
          Err(BadSectionCount)
        else
          match CheckSections(sections.value.items)
          case Err(e) => Err(e)
          case Ok(done) => Ok(Layout(done, ThemeOf(theme.value)))
  }

  predicate LawfulTheme(t: Theme) {
    HexColor(t.accent) && HexColor(t.background) && HexColor(t.ink) && HexColor(t.primary) && HexColor(t.surface)
  }

  /** What an accepted layout is. */
  ghost predicate Lawful(l: Layout) {
    1 <= |l.sections| <= MAX_SECTIONS && LawfulTheme(l.theme) && LawfulSections(l.sections)
  }

  predicate CarriesTheme(theme: Json, t: Theme) {
    && theme.Obj? && Get(theme, "accent") == Some(Str(t.accent)) && Get(theme, "background") == Some(Str(t.background))
    && Get(theme, "ink") == Some(Str(t.ink)) && Get(theme, "primary") == Some(Str(t.primary))
    && Get(theme, "surface") == Some(Str(t.surface))
  }

  ghost predicate CarriesHome(screens: Json, sections: seq<Section>) {
    var home := Get(screens, "home");
    home.Some? && var list := Get(home.value, "sections");
    list.Some? && list.value.Arr? && CarriesSections(list.value.items, sections)
  }

  /** The raw value has the layout's parts where the app looks for them, whatever else it has. */
  ghost predicate Carries(raw: Json, l: Layout) {
    var theme, screens := Get(raw, "theme"), Get(raw, "screens");
    && Get(raw, "version") == Some(Number("1"))
    && theme.Some? && CarriesTheme(theme.value, l.theme)
    && screens.Some? && CarriesHome(screens.value, l.sections)
  }

  lemma ThemeAccepted(theme: Json, t: Theme)
    requires theme.Obj?
    ensures BadColorKey(theme, 0).None? && ThemeOf(theme) == t <==> CarriesTheme(theme, t) && LawfulTheme(t)
  {
    hide HexColor, GetField;
    assert BadColorKey(theme, 0).None? <==> forall k | 0 <= k < |THEME_KEYS| :: IsColor(Get(theme, THEME_KEYS[k])) by {
      ColorsFrom(theme, 0);
    }
    assert THEME_KEYS[0] == "accent" && THEME_KEYS[1] == "background" && THEME_KEYS[2] == "ink";
    assert THEME_KEYS[3] == "primary" && THEME_KEYS[4] == "surface";
  }

  lemma {:induction false} ColorsFrom(theme: Json, k: nat)
    requires k <= |THEME_KEYS|
    ensures BadColorKey(theme, k).None? <==> forall i | k <= i < |THEME_KEYS| :: IsColor(Get(theme, THEME_KEYS[i]))
    decreases |THEME_KEYS| - k
  {
    hide HexColor, GetField;
    if k < |THEME_KEYS| {
      ColorsFrom(theme, k + 1);
    }
  }

  /**
   * A value is accepted as a layout exactly when it carries that layout and the layout is lawful:
   * distinct ids, known types, colours, bounded props, and secure addresses at every depth.
   */
  lemma AcceptedExactly(raw: Json, l: Layout)
    ensures Validate(raw) == Ok(l) <==> Carries(raw, l) && Lawful(l)
  {
    hide BadColorKey, ThemeOf, LawfulTheme, LawfulSections, CheckSections, CarriesTheme, CarriesSections, GetField;
    var theme, screens := Get(raw, "theme"), Get(raw, "screens");
    if theme.Some? && theme.value.Obj? {
      ThemeAccepted(theme.value, l.theme);
    } else {
      NoThemeCarried(raw, l);
    }
    if screens.Some? {
      var home := Get(screens.value, "home");
      if home.Some? {
        var sections := Get(home.value, "sections");
        if sections.Some? && sections.value.Arr? {
          SectionsAccepted(sections.value.items, l.sections);
          SameLength(sections.value.items, l.sections);
        }
      }
    }
  }

  lemma NoThemeCarried(raw: Json, l: Layout)
    requires var theme := Get(raw, "theme"); theme.None? || !theme.value.Obj?
    ensures !Carries(raw, l)
  {
  }

  lemma SameLength(raws: seq<Json>, sections: seq<Section>)
    ensures CarriesSections(raws, sections) ==> |raws| == |sections|
  {
  }

  // ---------- Acceptance in so many words ----------

  ghost predicate AllowedSection(s: Section) {
    && |s.id| <= 40 && (exists words :: Words(words) && Joined(words) == s.id)
    && s.kind in {"BANNERS", "HERO", "INFO_STRIP", "LODGE_RAIL", "NOTICE", "SEARCH", "TRUST_POINTS"}
    && s.props.Obj? && Utf8Size(Stringify(s.props)) <= 8192
    && forall place :: !Insecure(s.props, place)
  }

  predicate Colour(s: string) {
    |s| == 7 && s[0] == '#' && forall i | 1 <= i < 7 :: s[i] in "0123456789abcdefABCDEF"
  }

  ghost predicate Allowed(l: Layout) {
    && 1 <= |l.sections| <= 30
    && (forall i, j | 0 <= i < j < |l.sections| :: l.sections[i].id != l.sections[j].id)
    && (forall i | 0 <= i < |l.sections| :: AllowedSection(l.sections[i]))
    && Colour(l.theme.accent) && Colour(l.theme.background) && Colour(l.theme.ink) && Colour(l.theme.primary)
    && Colour(l.theme.surface)
  }

  lemma ColourExactly(s: string)
    ensures HexColor(s) <==> Colour(s)
  {
    forall c: char
      ensures c in "0123456789abcdefABCDEF" <==> '0' <= c <= '9' || 'a' <= c <= 'f' || 'A' <= c <= 'F'
    {
      HexDigit(c);
    }
  }

  lemma HexDigit(c: char)
    ensures c in "0123456789abcdefABCDEF" <==> '0' <= c <= '9' || 'a' <= c <= 'f' || 'A' <= c <= 'F'
  {
    var hex := "0123456789abcdefABCDEF";
    if '0' <= c <= '9' {
      assert hex[c as int - 48] == c;
    } else if 'a' <= c <= 'f' {
      assert hex[c as int - 87] == c;
    } else if 'A' <= c <= 'F' {
      assert hex[c as int - 49] == c;
    }
  }

  lemma SectionInWords(s: Section)
    requires AsciiNumbers(s.props)
    ensures LawfulSection(s) <==> AllowedSection(s)
  {
    hide Insecure, Stringify, Bytes, Utf8Size, AsciiNumbers, Words, Joined, MatchesId, FirstInsecure, SecureAt;
    IdsAreHyphenatedWords(s.id);
    BytesOfText(s.props);
    NoneIsSecure(s.props, s.id);
    if FirstInsecure(s.props, s.id).Some? {
      var place := FirstReported(s.props, s.id);
    }
    forall place | Insecure(s.props, place) ensures !Secure(s.props) {
      InsecurePlace(s.props, place);
    }
  }

  /** A value is accepted exactly when it carries a layout within these limits. */
  lemma AcceptedInWords(raw: Json, l: Layout)
    requires forall i | 0 <= i < |l.sections| :: AsciiNumbers(l.sections[i].props)
    ensures Validate(raw) == Ok(l) <==> Carries(raw, l) && Allowed(l)
  {
    hide Validate, Carries, AsciiNumbers, LawfulSection, AllowedSection, HexColor, Colour;
    AcceptedExactly(raw, l);
    forall i | 0 <= i < |l.sections| ensures LawfulSection(l.sections[i]) <==> AllowedSection(l.sections[i]) {
      SectionInWords(l.sections[i]);
    }
    forall s ensures HexColor(s) <==> Colour(s) {
      ColourExactly(s);
    }
  }

  /** Which complaint a section gets: the first of these that applies. */
  lemma RefusedSection(raw: Json, seen: set<string>)
    ensures var r, id, props := CheckSection(raw, seen), Get(raw, "id"), Get(raw, "props");
            && (r == Err(NotAnObject) <==> !raw.Obj?)
            && (r == Err(BadId) ==> !exists s :: id == Some(Str(s)) && SectionId(s))
            && (r == Err(DuplicateId) ==> exists s :: s in seen && id == Some(Str(s)))
            && (r == Err(BadType) ==> !exists k :: k in SECTION_TYPES && Get(raw, "type") == Some(Str(k)))
            && (r == Err(BadEnabled) ==> !exists b :: Get(raw, "enabled") == Some(Bool(b)))
            && (r == Err(NoProps) ==> !exists fields :: props == Some(Obj(fields)))
            && (r == Err(PropsTooLarge) ==> props.Some? && Bytes(props.value) > 8192)
            && (r.Err? && r.error.InsecureUrl? ==> props.Some? && !Secure(props.value))
  {
    hide SectionId, Bytes, FirstInsecure, Secure, GetField;
    var props, id := Get(raw, "props"), Get(raw, "id");
    if props.Some? && id.Some? && id.value.Str? {
      NoneIsSecure(props.value, id.value.s);
    }
  }

  // ---------- Validating again ----------

  function SectionJson(s: Section): Json {
    Obj([Field("enabled", Bool(s.enabled)), Field("id", Str(s.id)), Field("props", s.props),
         Field("type", Str(s.kind))])
  }

  function ThemeJson(t: Theme): Json {
    Obj([Field("accent", Str(t.accent)), Field("background", Str(t.background)), Field("ink", Str(t.ink)),
         Field("primary", Str(t.primary)), Field("surface", Str(t.surface))])
  }

  function SectionsJson(sections: seq<Section>): seq<Json> {
    seq(|sections|, i requires 0 <= i < |sections| => SectionJson(sections[i]))
  }

  /** The accepted layout as it is stored. */
  function LayoutJson(l: Layout): Json {
    Obj([Field("screens", Obj([Field("home", Obj([Field("sections", Arr(SectionsJson(l.sections)))]))])),
         Field("theme", ThemeJson(l.theme)), Field("version", Number("1"))])
  }

  lemma {:induction false} GetAt(fields: seq<Field>, k: nat)
    requires k < |fields| && forall i | 0 <= i < k :: fields[i].key != fields[k].key
    ensures GetField(fields, fields[k].key) == Some(fields[k].value)
    decreases k
  {
    if k > 0 {
      GetAt(fields[1..], k - 1);
    }
  }

  lemma SectionJsonCarries(s: Section)
    ensures CarriesSection(SectionJson(s), s)
  {
    hide GetField;
    var fields := SectionJson(s).fields;
    GetAt(fields, 0);
    GetAt(fields, 1);
    GetAt(fields, 2);
    GetAt(fields, 3);
  }

  lemma ThemeJsonCarries(t: Theme)
    ensures CarriesTheme(ThemeJson(t), t)
  {
    hide GetField;
    var fields := ThemeJson(t).fields;
    GetAt(fields, 0);
    GetAt(fields, 1);
    GetAt(fields, 2);
    GetAt(fields, 3);
    GetAt(fields, 4);
  }

  lemma LayoutJsonCarries(l: Layout)
    ensures Carries(LayoutJson(l), l)
  {
    hide GetField, CarriesSection, CarriesTheme, SectionJson, ThemeJson;
    var fields := LayoutJson(l).fields;
    GetAt(fields, 0);
    GetAt(fields, 1);
    GetAt(fields, 2);
    GetAt(fields[0].value.fields, 0);
    GetAt(fields[0].value.fields[0].value.fields, 0);
    ThemeJsonCarries(l.theme);
    forall i | 0 <= i < |l.sections| ensures CarriesSection(SectionsJson(l.sections)[i], l.sections[i]) {
      SectionJsonCarries(l.sections[i]);
    }
  }

  /** Validating an accepted layout again returns it unchanged. */
  lemma ValidatingAgainIsNoChange(raw: Json)
    requires Validate(raw).Ok?
    ensures Validate(LayoutJson(Validate(raw).value)) == Validate(raw)
  {
    hide Validate, Carries, Lawful, LayoutJson;
    var l := Validate(raw).value;
    AcceptedExactly(raw, l);
    LayoutJsonCarries(l);
    AcceptedExactly(LayoutJson(l), l);
  }

  /** The validation as it runs, with one set of seen ids for all sections. */
  method ValidatePilgrimLayout(raw: Json) returns (r: Result<Layout, Error>)
    ensures r == Validate(raw)
    ensures r.Ok? ==> Lawful(r.value) && Carries(raw, r.value)
  {
    if r0: Layout :| Validate(raw) == Ok(r0) {
      AcceptedExactly(raw, r0);
    }
    hide Carries, Lawful, HexColor, GetField, CheckSection;
    if !raw.Obj? || Get(raw, "version") != Some(Number("1")) {
      return Err(BadVersion);
    }
    var theme := Get(raw, "theme");
    if theme.None? || !theme.value.Obj? {
      return Err(NoTheme);
    }
    for k := 0 to |THEME_KEYS|
      invariant BadColorKey(theme.value, 0) == BadColorKey(theme.value, k)
    {
      if !IsColor(Get(theme.value, THEME_KEYS[k])) {
        return Err(BadColor(THEME_KEYS[k]));
      }
    }
    var screens := Get(raw, "screens");
    if screens.None? || !screens.value.Obj? {
      return Err(NoHome);
    }
    var home := Get(screens.value, "home");
    if home.None? || !home.value.Obj? {
      return Err(NoHome);
    }
    var sections := Get(home.value, "sections");
    if sections.None? || !sections.value.Arr? || |sections.value.items| == 0 || |sections.value.items| > MAX_SECTIONS {
      return Err(BadSectionCount);
    }
    var raws, seen: set<string>, validated: seq<Section> := sections.value.items, {}, [];
    for i := 0 to |raws|
      invariant CheckSections(raws[..i]) == Ok(validated) && seen == Ids(validated)
    {
      assert raws[..i + 1][..i] == raws[..i];
      var checked := ValidateSection(raws[i], seen);
      if checked.Err? {
        ErrorStays(raws, i + 1);
        return Err(checked.error);
      }
      IdsAppended(validated, checked.value);
      seen := seen + {checked.value.id};
      validated := validated + [checked.value];
    }
    assert raws[..|raws|] == raws;
    return Ok(Layout(validated, ThemeOf(theme.value)));
  }
}
