/** The config sanitizer of exports against the validator of restores, over all JSON values
    (internal/backup/config.go). The decision about executable paths is a fixed predicate. */
module ConfigSanitizer {
  import Bytes

  datatype Json =
    | Object(fields: map<string, Json>)
    | Array(items: seq<Json>)
    | Text(value: string)
    | Number(literal: string)
    | Boolean(flag: bool)
    | Null

  type BinaryPolicy = string -> bool

  // ----- field names

  /** The lower-case form of a character, as far as it is an ASCII letter or digit; two characters
      outside ASCII have an ASCII lower case: the dotted capital I and the Kelvin sign. */
  function Fold(c: char): string {
    if 'a' <= c <= 'z' || '0' <= c <= '9' then [c]
    else if 'A' <= c <= 'Z' then [(c as int + 32) as char]
    else if c == '\U{0130}' then "i"
    else if c == '\U{212A}' then "k"
    else ""
  }

  function NormalizedName(name: string): string {
    if name == "" then "" else NormalizedName(name[..|name| - 1]) + Fold(name[|name| - 1])
  }

  method NormalizeFieldName(name: string) returns (builder: string)
    ensures builder == NormalizedName(name)
  {
    builder := "";
    for i := 0 to |name|
      invariant builder == NormalizedName(name[..i])
    {
      assert name[..i + 1][..i] == name[..i];
      builder := builder + Fold(name[i]);
    }
    assert name[..|name|] == name;
  }

  predicate SensitiveField(normalized: string) {
    normalized in {
      "credentialref", "credential", "apikey", "apisecret", "secret", "password",
      "passphrase", "token", "accesstoken", "refreshtoken", "clientsecret",
      "authorization", "bearer", "privatekey", "secretkey"
    }
  }

  predicate Lower(c: char) {
    'a' <= c <= 'z' || '0' <= c <= '9'
  }

  predicate Upper(c: char) {
    'A' <= c <= 'Z'
  }

  const DOTTED_I: char := '\U{0130}'
  const KELVIN: char := '\U{212A}'

  /** A word of small letters and digits is its own normalized name. */
  lemma {:induction false} WordsStay(name: string)
    requires forall i :: 0 <= i < |name| ==> Lower(name[i])
    ensures NormalizedName(name) == name
  {
    if name != "" {
      WordsStay(name[..|name| - 1]);
    }
  }

  /** The same character, or the same ASCII letter in the other case. */
  predicate SameLetter(c: char, d: char) {
    || c == d
    || (Upper(c) && 'a' <= d <= 'z' && d as int - 'a' as int == c as int - 'A' as int)
    || (Upper(d) && 'a' <= c <= 'z' && c as int - 'a' as int == d as int - 'A' as int)
  }

  /** Names that differ only in the case of ASCII letters normalize alike. */
  lemma {:induction false} CaseDoesNotMatter(a: string, b: string)
    requires |a| == |b| && forall i :: 0 <= i < |a| ==> SameLetter(a[i], b[i])
    ensures NormalizedName(a) == NormalizedName(b)
  {
    if a != "" {
      var n := |a| - 1;
      CaseDoesNotMatter(a[..n], b[..n]);
      assert SameLetter(a[n], b[n]) && Fold(a[n]) == Fold(b[n]);
    }
  }

  /** The two foreign letters with an ASCII lower case read as those. */
  lemma ForeignLettersDoNotHide(a: string, b: string)
    ensures NormalizedName(a + [DOTTED_I] + b) == NormalizedName(a + "i" + b)
    ensures NormalizedName(a + [KELVIN] + b) == NormalizedName(a + "k" + b)
  {
    LikeLetters(a, DOTTED_I, 'i', b);
    LikeLetters(a, KELVIN, 'k', b);
  }

  lemma LikeLetters(a: string, c: char, d: char, b: string)
    requires Fold(c) == Fold(d)
    ensures NormalizedName(a + [c] + b) == NormalizedName(a + [d] + b)
  {
    NormalizedSnoc(a, c);
    NormalizedSnoc(a, d);
    hide NormalizedName, Fold;
    NormalizedJoin(a + [c], b);
    NormalizedJoin(a + [d], b);
  }

  lemma {:induction false} NormalizedJoin(a: string, b: string)
    ensures NormalizedName(a + b) == NormalizedName(a) + NormalizedName(b)
    decreases |b|
  {
    EmptyName();
    hide NormalizedName, Fold;
    if b == "" {
      assert a + b == a;
    } else {
      var init, last := b[..|b| - 1], b[|b| - 1];
      NormalizedJoin(a, init);
      JoinOneMore(a, init, last);
      assert init + [last] == b;
    }
  }

  lemma EmptyName()
    ensures NormalizedName("") == ""
  {
  }

  lemma JoinOneMore(a: string, init: string, c: char)
    requires NormalizedName(a + init) == NormalizedName(a) + NormalizedName(init)
    ensures NormalizedName(a + (init + [c])) == NormalizedName(a) + NormalizedName(init + [c])
  {
    NormalizedSnoc(init, c);
    NormalizedSnoc(a + init, c);
    hide NormalizedName, Fold;
    Bytes.Associative(a, init, [c]);
    Bytes.Associative(NormalizedName(a), NormalizedName(init), Fold(c));
  }

  lemma NormalizedSnoc(a: string, c: char)
    ensures NormalizedName(a + [c]) == NormalizedName(a) + Fold(c)
  {
    assert (a + [c])[..|a|] == a;
  }

  /** Only ASCII letters and digits and those two matter to a name: separators cannot hide a field. */
  lemma SeparatorsDoNotMatter(a: string, c: char, b: string)
    requires Separator(c)
    ensures NormalizedName(a + [c] + b) == NormalizedName(a + b)
  {
    SeparatorAtEnd(a, c);
    hide NormalizedName, Fold;
    NormalizedJoin(a + [c], b);
    NormalizedJoin(a, b);
  }

  lemma SeparatorAtEnd(a: string, c: char)
    requires Separator(c)
    ensures NormalizedName(a + [c]) == NormalizedName(a)
  {
    NormalizedSnoc(a, c);
    hide NormalizedName;
    assert Fold(c) == "";
  }

  // ----- keeping and rejecting

  /** Whether a field may stay: not sensitive, and a binary only with an approved path. */
  predicate Keep(key: string, child: Json, safe: BinaryPolicy) {
    && !SensitiveField(NormalizedName(key))
    && (NormalizedName(key) == "binary" ==> child.Text? && safe(child.value))
  }

  function Sanitized(v: Json, safe: BinaryPolicy): Json {
    match v
    case Object(fields) =>
      Object(map key | key in fields && Keep(key, fields[key], safe) :: Sanitized(fields[key], safe))
    case Array(items) => Array(seq(|items|, i requires 0 <= i < |items| => Sanitized(items[i], safe)))
    case _ => v
  }

  /** rejectSensitiveJSON reports no error. */
  predicate Accepted(v: Json, safe: BinaryPolicy) {
    match v
    case Object(fields) => forall key :: key in fields ==> Keep(key, fields[key], safe) && Accepted(fields[key], safe)
    case Array(items) => forall i :: 0 <= i < |items| ==> Accepted(items[i], safe)
    case _ => true
  }

  /** Sanitizing leaves the text of a kept binary alone, so a kept field is still one to keep. */
  lemma KeptStaysKept(key: string, child: Json, safe: BinaryPolicy)
    requires Keep(key, child, safe)
    ensures Keep(key, Sanitized(child, safe), safe)
  {
  }

  /** Whatever goes in, restore accepts what export sanitized. */
  lemma {:induction false} SanitizedIsAccepted(v: Json, safe: BinaryPolicy)
    ensures Accepted(Sanitized(v, safe), safe)
  {
    match v
    case Object(fields) =>
      forall key | key in fields && Keep(key, fields[key], safe)
        ensures Keep(key, Sanitized(fields[key], safe), safe) && Accepted(Sanitized(fields[key], safe), safe)
      {
        KeptStaysKept(key, fields[key], safe);
        SanitizedIsAccepted(fields[key], safe);
      }
    case Array(items) =>
      forall i | 0 <= i < |items|
        ensures Accepted(Sanitized(items[i], safe), safe)
      {
        SanitizedIsAccepted(items[i], safe);
      }
    case _ =>
  }

  /** The validator accepts a value exactly when the sanitizer would not change it. */
  lemma {:induction false} AcceptedIffUnchanged(v: Json, safe: BinaryPolicy)
    ensures Accepted(v, safe) <==> Sanitized(v, safe) == v
  {
    match v
    case Object(fields) =>
      forall key | key in fields
        ensures Accepted(fields[key], safe) <==> Sanitized(fields[key], safe) == fields[key]
      {
        AcceptedIffUnchanged(fields[key], safe);
      }
      var clean := Sanitized(v, safe).fields;
      if clean == fields {
        assert forall key :: key in fields ==> key in clean && clean[key] == Sanitized(fields[key], safe);
      }
      if Accepted(v, safe) {
        assert clean == fields;
      }
    case Array(items) =>
      forall i | 0 <= i < |items|
        ensures Accepted(items[i], safe) <==> Sanitized(items[i], safe) == items[i]
      {
        AcceptedIffUnchanged(items[i], safe);
      }
      var clean := Sanitized(v, safe).items;
      assert |clean| == |items| && forall i :: 0 <= i < |items| ==> clean[i] == Sanitized(items[i], safe);
      if Accepted(v, safe) {
        assert clean == items;
      }
    case _ =>
  }

  /** Sanitizing twice is sanitizing once. */
  lemma SanitizeIsIdempotent(v: Json, safe: BinaryPolicy)
    ensures Sanitized(Sanitized(v, safe), safe) == Sanitized(v, safe)
  {
    SanitizedIsAccepted(v, safe);
    AcceptedIffUnchanged(Sanitized(v, safe), safe);
  }

  /** A value found by descending through fields and items. */
  datatype Step = Field(key: string) | Item(index: nat)

  function At(v: Json, path: seq<Step>): (r: Json)
    requires ValidPath(v, path)
  {
    if path == [] then v
    else match path[0]
      case Field(key) => At(v.fields[key], path[1..])
      case Item(i) => At(v.items[i], path[1..])
  }

  predicate ValidPath(v: Json, path: seq<Step>) {
    path == [] || match path[0]
      case Field(key) => v.Object? && key in v.fields && ValidPath(v.fields[key], path[1..])
      case Item(i) => v.Array? && i < |v.items| && ValidPath(v.items[i], path[1..])
  }

  /** A field that must go: a secret by its normalized name, or a binary that is not an approved path. */
  predicate MustGo(key: string, child: Json, safe: BinaryPolicy) {
    || SensitiveField(NormalizedName(key))
    || (NormalizedName(key) == "binary" && (!child.Text? || !safe(child.value)))
  }

  /** The path passes through no field that must go. */
  predicate Harmless(v: Json, path: seq<Step>, safe: BinaryPolicy)
    requires ValidPath(v, path)
  {
    path == [] || match path[0]
      case Field(key) => !MustGo(key, v.fields[key], safe) && Harmless(v.fields[key], path[1..], safe)
      case Item(i) => Harmless(v.items[i], path[1..], safe)
  }

  /** Sanitizing removes exactly what must go, at every depth: a path leads through the sanitized value if
      and only if it led through the value and past no field that must go, and what stands there is the
      sanitized form of what stood there, which for anything but an object or a list is the thing itself. */
  lemma {:induction false} ExactlyTheHarmlessRemains(v: Json, path: seq<Step>, safe: BinaryPolicy)
    ensures ValidPath(Sanitized(v, safe), path) <==> ValidPath(v, path) && Harmless(v, path, safe)
    ensures (ValidPath(v, path) && Harmless(v, path, safe) ==>
               && At(Sanitized(v, safe), path) == Sanitized(At(v, path), safe)
               && (!At(v, path).Object? && !At(v, path).Array? ==> At(Sanitized(v, safe), path) == At(v, path)))
    decreases |path|
  {
    if path != [] {
      match path[0]
      case Field(key) =>
        if v.Object? && key in v.fields {
          ExactlyTheHarmlessRemains(v.fields[key], path[1..], safe);
        }
      case Item(i) =>
        if v.Array? && i < |v.items| {
          ExactlyTheHarmlessRemains(v.items[i], path[1..], safe);
        }
    }
  }

  /** No path through sanitized metadata, however deep, ends in a secret or in an unapproved binary. */
  lemma NothingSensitiveRemains(v: Json, safe: BinaryPolicy, path: seq<Step>, key: string)
    requires ValidPath(Sanitized(v, safe), path + [Field(key)])
    ensures !SensitiveField(NormalizedName(key))
    ensures (NormalizedName(key) == "binary" ==>
               var child := At(Sanitized(v, safe), path + [Field(key)]); child.Text? && safe(child.value))
  {
    ExactlyTheHarmlessRemains(v, path + [Field(key)], safe);
    EndsHarmless(v, path, key, safe);
  }

  lemma {:induction false} EndsHarmless(v: Json, path: seq<Step>, key: string, safe: BinaryPolicy)
    requires ValidPath(v, path + [Field(key)]) && Harmless(v, path + [Field(key)], safe)
    ensures !MustGo(key, At(v, path + [Field(key)]), safe)
    decreases |path|
  {
    var full := path + [Field(key)];
    if path == [] {
      assert full[1..] == [];
    } else {
      assert full[1..] == path[1..] + [Field(key)];
      match path[0]
      case Field(k) => EndsHarmless(v.fields[k], path[1..], key, safe);
      case Item(i) => EndsHarmless(v.items[i], path[1..], key, safe);
    }
  }

  /** The same on restore: metadata is accepted if and only if it has no field that must go, at any depth. */
  lemma AcceptedIffNothingMustGo(v: Json, safe: BinaryPolicy)
    ensures Accepted(v, safe) <==> forall path :: ValidPath(v, path) ==> Harmless(v, path, safe)
  {
    if Accepted(v, safe) {
      AcceptedIffUnchanged(v, safe);
      forall path | ValidPath(v, path)
        ensures Harmless(v, path, safe)
      {
        ExactlyTheHarmlessRemains(v, path, safe);
      }
    } else {
      var path := Offence(v, safe);
    }
  }

  lemma {:induction false} Offence(v: Json, safe: BinaryPolicy) returns (path: seq<Step>)
    requires !Accepted(v, safe)
    ensures ValidPath(v, path) && !Harmless(v, path, safe)
    decreases v
  {
    match v
    case Object(fields) =>
      var key :| key in fields && !(Keep(key, fields[key], safe) && Accepted(fields[key], safe));
      var rest: seq<Step> := [];
      if Keep(key, fields[key], safe) {
        rest := Offence(fields[key], safe);
      }
      path := [Field(key)] + rest;
      assert path[1..] == rest;
    case Array(items) =>
      var i :| 0 <= i < |items| && !Accepted(items[i], safe);
      var rest := Offence(items[i], safe);
      path := [Item(i)] + rest;
      assert path[1..] == rest;
  }

  predicate Separator(c: char) {
    !Lower(c) && !Upper(c) && c != DOTTED_I && c != KELVIN
  }

  /** The name is the word in any mix of cases, with separators anywhere. */
  predicate Spells(name: string, word: string)
    decreases |name|
  {
    if name == "" then word == ""
    else
      var init, last := name[..|name| - 1], name[|name| - 1];
      || (Separator(last) && Spells(init, word))
      || (word != "" && SameLetter(last, word[|word| - 1]) && Spells(init, word[..|word| - 1]))
  }

  lemma SameLetterFolds(c: char, d: char)
    requires SameLetter(c, d) && Lower(d)
    ensures Fold(c) == [d]
  {
  }

  /** Every spelling of a word reads as that word, so every spelling of a secret is one. */
  lemma {:induction false} EverySpellingCounts(name: string, word: string)
    requires Spells(name, word) && forall i :: 0 <= i < |word| ==> Lower(word[i])
    ensures NormalizedName(name) == word
    decreases |name|
  {
    if name != "" {
      var init, last := name[..|name| - 1], name[|name| - 1];
      assert name == init + [last];
      NormalizedSnoc(init, last);
      if Separator(last) && Spells(init, word) {
        EverySpellingCounts(init, word);
        SeparatorAtEnd(init, last);
      } else {
        var stem, letter := word[..|word| - 1], word[|word| - 1];
        EverySpellingCounts(init, stem);
        SameLetterFolds(last, letter);
        hide NormalizedName, Spells, Fold;
        assert word == stem + [letter];
      }
    }
  }

  predicate SecretKey(word: string) {
    word == "apikey" || word == "apisecret" || word == "clientsecret" || word == "secretkey" || word == "privatekey"
  }

  predicate SecretToken(word: string) {
    word == "token" || word == "accesstoken" || word == "refreshtoken" || word == "authorization" || word == "bearer"
  }

  predicate SecretWord(word: string) {
    word == "password" || word == "passphrase" || word == "secret" || word == "credential" || word == "credentialref"
  }

  /** Whatever way a key, token, password or other secret is spelled, the field that holds it goes. */
  lemma SecretsGo(name: string, word: string, child: Json, safe: BinaryPolicy)
    requires Spells(name, word) && (SecretKey(word) || SecretToken(word) || SecretWord(word))
    ensures MustGo(name, child, safe) && Sanitized(Object(map[name := child]), safe) == Object(map[])
    ensures !Accepted(Object(map[name := child]), safe)
  {
    SecretsAreWords(word);
    hide Spells, SensitiveField, NormalizedName, SecretKey, SecretToken, SecretWord;
    EverySpellingCounts(name, word);
    SecretIsDropped(name, child, safe);
  }

  lemma SecretsAreWords(word: string)
    ensures SecretKey(word) ==> SensitiveField(word) && forall i :: 0 <= i < |word| ==> Lower(word[i])
    ensures SecretToken(word) ==> SensitiveField(word) && forall i :: 0 <= i < |word| ==> Lower(word[i])
    ensures SecretWord(word) ==> SensitiveField(word) && forall i :: 0 <= i < |word| ==> Lower(word[i])
  {
  }

  lemma SecretIsDropped(name: string, child: Json, safe: BinaryPolicy)
    requires SensitiveField(NormalizedName(name))
    ensures MustGo(name, child, safe) && Sanitized(Object(map[name := child]), safe) == Object(map[])
    ensures !Accepted(Object(map[name := child]), safe)
  {
    hide SensitiveField, NormalizedName;
    assert !Keep(name, child, safe);
    var fields := map[name := child];
    assert name in fields && fields[name] == child;
  }

  // ----- the loops of the original

  /** sanitizeJSON, visiting the fields of an object in any order. */
  method SanitizeJson(v: Json, safe: BinaryPolicy) returns (r: Json)
    ensures r == Sanitized(v, safe)
    decreases v, 0
  {
    match v
    case Object(fields) =>
      var cleaned: map<string, Json> := map[];
      var pending := fields.Keys;
      while pending != {}
        invariant pending <= fields.Keys
        invariant cleaned == map key | key in fields && key !in pending
                && Keep(key, fields[key], safe) :: Sanitized(fields[key], safe)
        decreases |pending|
      {
        var key :| key in pending;
        var normalized := NormalizeFieldName(key);
        pending := pending - {key};
        var child := fields[key];
        if !SensitiveField(normalized) && (normalized == "binary" ==> child.Text? && safe(child.value)) {
          var value := SanitizeJson(child, safe);
          cleaned := cleaned[key := value];
        }
      }
      r := Object(cleaned);
      assert cleaned == Sanitized(v, safe).fields;
    case Array(items) =>
      var cleaned: seq<Json> := [];
      for i := 0 to |items|
        invariant |cleaned| == i && forall k :: 0 <= k < i ==> cleaned[k] == Sanitized(items[k], safe)
      {
        var value := SanitizeJson(items[i], safe);
        cleaned := cleaned + [value];
      }
      r := Array(cleaned);
    case _ => r := v;
  }
}
