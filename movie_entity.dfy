/**
 * The server's `Movie` entity and the Jakarta Bean Validation constraints
 * on its fields, checked when a movie is received with `@Valid`: every
 * text field must be non-blank and have a length within its bounds; the
 * rating is free and the id is generated.
 */
module MovieEntity {
  import opened Wrappers
  import opened JsString

  /** The entity; `None` is a Java `null`. */
  datatype Movie = Movie(
    id: Option<int>,
    movieName: Option<String>,
    description: Option<String>,
    releaseYear: Option<String>,
    imdbRating: Option<real>,
    producer: Option<String>,
    genre: Option<String>)

  /** The constrained fields. */
  datatype Field = MovieName | Description | ReleaseYear | Producer | Genre

  function FieldValue(m: Movie, f: Field): Option<String> {
    match f
    case MovieName => m.movieName
    case Description => m.description
    case ReleaseYear => m.releaseYear
    case Producer => m.producer
    case Genre => m.genre
  }

  /** The `@Size(min, max)` bounds of each field. */
  function MinLength(f: Field): nat { 2 }

  function MaxLength(f: Field): nat {
    match f
    case MovieName => 50
    case Description => 300
    case ReleaseYear => 25
    case Producer => 25
    case Genre => 30
  }

  /** The characters Java's `String.trim` removes: code points up to U+0020. */
  predicate JavaSpace(c: char) { c <= ' ' }

  /** `String.trim` in Java. */
  function JavaTrim(s: String): (r: String)
    ensures |r| <= |s|
    ensures r == [] || (!JavaSpace(r[0]) && !JavaSpace(r[|r| - 1]))
    decreases |s|
  {
    if s != [] && JavaSpace(s[0]) then JavaTrim(s[1..])
    else if s != [] && JavaSpace(s[|s| - 1]) then JavaTrim(s[..|s| - 1])
    else s
  }

  /** Trimming empties a string exactly when all its characters are at most
      U+0020. */
  lemma {:induction false} JavaTrimEmptyIff(s: String)
    ensures JavaTrim(s) == [] <==> forall k :: 0 <= k < |s| ==> JavaSpace(s[k])
    decreases |s|
  {
    if s != [] && JavaSpace(s[0]) {
      JavaTrimEmptyIff(s[1..]);
      assert forall k :: 1 <= k < |s| ==> s[k] == s[1..][k - 1];
    } else if s != [] && JavaSpace(s[|s| - 1]) {
      JavaTrimEmptyIff(s[..|s| - 1]);
      assert forall k :: 0 <= k < |s| - 1 ==> s[k] == s[..|s| - 1][k];
    } else if s != [] {
      assert !JavaSpace(s[0]);
    }
  }

  /** `@NotBlank`: not null, and something is left after `trim`. */
  predicate NotBlank(v: Option<String>) {
    v.Some? && JavaTrim(v.value) != []
  }

  /** A value is not blank exactly when it has a character above U+0020. */
  lemma NotBlankMeaning(v: Option<String>)
    ensures NotBlank(v) <==> v.Some? && exists k :: 0 <= k < |v.value| && !JavaSpace(v.value[k])
  {
    if v.Some? {
      JavaTrimEmptyIff(v.value);
    }
  }

  /** `@Size(min, max)`: null passes; otherwise the length in UTF-16 code
      units lies within the bounds. */
  predicate SizeWithin(v: Option<String>, min: nat, max: nat) {
    v.None? || min <= Utf16Length(v.value) <= max
  }

  /** The constraint kinds a field may violate. */
  datatype Check = NotBlankCheck | SizeCheck

  datatype Violation = Violation(field: Field, check: Check)

  /** The violations of one field. */
  function FieldViolations(m: Movie, f: Field): (r: set<Violation>)
    ensures Violation(f, NotBlankCheck) in r <==> !NotBlank(FieldValue(m, f))
    ensures Violation(f, SizeCheck) in r <==> !SizeWithin(FieldValue(m, f), MinLength(f), MaxLength(f))
    ensures forall v :: v in r ==> v.field == f
  {
    var v := FieldValue(m, f);
    (if NotBlank(v) then {} else {Violation(f, NotBlankCheck)})
    + (if SizeWithin(v, MinLength(f), MaxLength(f)) then {} else {Violation(f, SizeCheck)})
  }

  /** What the validator reports for a movie. */
  function Violations(m: Movie): set<Violation> {
    FieldViolations(m, MovieName) + FieldViolations(m, Description) + FieldViolations(m, ReleaseYear)
    + FieldViolations(m, Producer) + FieldViolations(m, Genre)
  }

  /** A field passes both of its constraints. */
  predicate FieldValid(m: Movie, f: Field) {
    var v := FieldValue(m, f);
    v.Some? && JavaTrim(v.value) != [] && MinLength(f) <= Utf16Length(v.value) <= MaxLength(f)
  }

  /** The movie `@Valid` accepts. */
  predicate Valid(m: Movie) { Violations(m) == {} }

  /** A field is reported exactly for its own failed constraints, and a
      movie is accepted exactly when every constrained field is valid. */
  lemma ValidIffFields(m: Movie)
    ensures forall f: Field, c: Check :: Violation(f, c) in Violations(m) <==> Violation(f, c) in FieldViolations(m, f)
    ensures Valid(m) <==> forall f: Field :: FieldValid(m, f)
  {
    forall f: Field, c: Check
      ensures Violation(f, c) in Violations(m) <==> Violation(f, c) in FieldViolations(m, f)
    {
      FieldViolationsOwn(m, f, c);
    }
    if Valid(m) {
      forall f: Field ensures FieldValid(m, f) {
        assert Violation(f, NotBlankCheck) !in FieldViolations(m, f);
        assert Violation(f, SizeCheck) !in FieldViolations(m, f);
      }
    }
    if forall f: Field :: FieldValid(m, f) {
      forall f: Field ensures FieldViolations(m, f) == {} {
        assert FieldValid(m, f);
      }
    }
  }

  lemma FieldViolationsOwn(m: Movie, f: Field, c: Check)
    ensures Violation(f, c) in Violations(m) <==> Violation(f, c) in FieldViolations(m, f)
  {
    var v := Violation(f, c);
    assert forall g: Field :: g != f ==> v !in FieldViolations(m, g);
  }

  /** A null field violates `@NotBlank` only: `@Size` lets null through. */
  lemma NullIsOnlyBlank(m: Movie, f: Field)
    requires FieldValue(m, f).None?
    ensures FieldViolations(m, f) == {Violation(f, NotBlankCheck)}
  {
  }

  /** Blankness and length are checked independently: two spaces are blank
      but long enough, one letter is not blank but too short. */
  lemma BlankAndSizeIndependent(m: Movie)
    ensures m.movieName == Some("  ") ==> FieldViolations(m, MovieName) == {Violation(MovieName, NotBlankCheck)}
    ensures m.movieName == Some("A") ==> FieldViolations(m, MovieName) == {Violation(MovieName, SizeCheck)}
  {
    if m.movieName == Some("  ") {
      assert JavaTrim("  ") == [];
      assert Utf16Length("  ") == 2;
    }
    if m.movieName == Some("A") {
      assert JavaTrim("A") == "A";
      assert Utf16Length("A") == 1;
    }
  }

  /** The rating and the id take no part in validation. */
  lemma UnconstrainedFields(m: Movie, id: Option<int>, rating: Option<real>)
    ensures Violations(m.(id := id, imdbRating := rating)) == Violations(m)
  {
    var m' := m.(id := id, imdbRating := rating);
    assert forall f: Field :: FieldValue(m', f) == FieldValue(m, f);
  }

  /** Java's `trim` and `String.prototype.trim` disagree: a name made of
      no-break spaces passes `@NotBlank` on the server, while the client
      treats the same text as blank. */
  lemma ServerAndClientBlankDiffer()
    ensures NotBlank(Some("\U{00A0}\U{00A0}"))
    ensures Trim("\U{00A0}\U{00A0}") == []
  {
    assert JavaTrim("\U{00A0}\U{00A0}") == "\U{00A0}\U{00A0}";
    assert Trim("\U{00A0}\U{00A0}") == Trim("\U{00A0}");
  }
}
