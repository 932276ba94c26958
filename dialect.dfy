/** queryer/queryer/src/dialect.rs: `TryDialect`, a SQL dialect whose
    identifiers may be URLs, and the example query that relies on it.
    A Rust `char` is a Unicode scalar value, as a Dafny `char` is. */
module Dialect {

  /** `TryDialect::is_identifier_start`: an ASCII letter or '_'. An
      identifier never starts with a space, a control character or a
      non-ASCII character. */
  predicate IsIdentifierStart(c: char)
    ensures IsIdentifierStart(c) ==> 0x20 < c as int < 0x7F
  {
    'a' <= c <= 'z' || 'A' <= c <= 'Z' || c == '_'
  }

  /** `TryDialect::is_identifier_part`: an ASCII letter, an ASCII digit, or
      one of the eight characters that let a URL through. An identifier never
      holds a space, a control character or a non-ASCII character. */
  predicate IsIdentifierPart(c: char)
    ensures IsIdentifierPart(c) ==> 0x20 < c as int < 0x7F
  {
    'a' <= c <= 'z' || 'A' <= c <= 'Z' || '0' <= c <= '9' || c in [':', '/', '?', '&', '=', '-', '_', '.']
  }

  /** Every character that may start an identifier may continue one. */
  lemma StartIsPart(c: char)
    requires IsIdentifierStart(c)
    ensures IsIdentifierPart(c)
  {
  }

  /** The characters that may continue but not start an identifier are
      exactly the digits and the punctuation `: / ? & = - .`. */
  lemma PartButNotStart(c: char)
    ensures IsIdentifierPart(c) && !IsIdentifierStart(c) <==> '0' <= c <= '9' || c in ":/?&=-."
  {
  }

  /** Both classes leave out every non-ASCII character, every ASCII control
      character, the space, and the SQL punctuation `,`, `*`, `(`, `)`, `>`,
      `<`, `;` and quotes. */
  lemma OutsideBothClasses(c: char)
    requires c as int <= 0x20 || c as int >= 0x7F || c in ",*()<>;'\""
    ensures !IsIdentifierStart(c) && !IsIdentifierPart(c)
  {
  }

  // ---------------------------------------------------------------- example_sql

  /** The URL of `example_sql`, written in pieces; their concatenation is
      the single literal of the source. */
  const ExampleUrl: string :=
    "https" + "://raw.githubusercontent.com/" + "owid/covid-19-data/master/" +
    "public/data/latest/" + "owid-covid-latest.csv"

  /** The `format!` template of `example_sql` before and after its `{}`
      (the line continuation drops the newline and the indentation). */
  const SqlBeforeUrl: string :=
    "SELECT location name, " + "total_cases, new_cases, " + "total_deaths, new_deaths " + "FROM "
  const SqlAfterUrl: string :=
    " where new_deaths >= 500 " + "ORDER BY new_cases DESC " + "LIMIT 6 OFFSET 5"

  /** `example_sql`. */
  function ExampleSql(): string {
    SqlBeforeUrl + ExampleUrl + SqlAfterUrl
  }

  /** `s[i..j]` is an identifier that a lexer reading the longest run of
      part characters cannot extend on either side. */
  predicate IsMaximalIdentifier(s: string, i: nat, j: nat) {
    && i < j <= |s|
    && IsIdentifierStart(s[i])
    && (forall k | i <= k < j :: IsIdentifierPart(s[k]))
    && (i == 0 || !IsIdentifierPart(s[i - 1]))
    && (j == |s| || !IsIdentifierPart(s[j]))
  }

  /** Every character of the URL is an identifier part, and the first one
      may start an identifier. */
  lemma ExampleUrlCharacters()
    ensures IsIdentifierStart(ExampleUrl[0])
    ensures forall k | 0 <= k < |ExampleUrl| :: IsIdentifierPart(ExampleUrl[k])
  {
    forall k | 0 <= k < |ExampleUrl|
      ensures IsIdentifierPart(ExampleUrl[k])
    {
      assert ExampleUrl[k] in ExampleUrl;
    }
  }

  /** The URL in the example query lexes as exactly one identifier, right
      after `FROM `: this is what the dialect was widened for. */
  lemma ExampleUrlIsOneIdentifier()
    ensures SqlBeforeUrl[|SqlBeforeUrl| - 5..] == "FROM "
    ensures ExampleSql()[|SqlBeforeUrl|..|SqlBeforeUrl| + |ExampleUrl|] == ExampleUrl
    ensures IsMaximalIdentifier(ExampleSql(), |SqlBeforeUrl|, |SqlBeforeUrl| + |ExampleUrl|)
  {
    var sql, b, u := ExampleSql(), |SqlBeforeUrl|, |ExampleUrl|;
    assert SqlBeforeUrl[b - 5..] == "FROM ";
    assert sql[b..b + u] == ExampleUrl;
    ExampleUrlCharacters();
    forall k | b <= k < b + u
      ensures IsIdentifierPart(sql[k])
    {
      assert sql[k] == ExampleUrl[k - b];
    }
    assert sql[b] == ExampleUrl[0];
    assert sql[b - 1] == SqlBeforeUrl[b - 1] == ' ';
    assert sql[b + u] == SqlAfterUrl[0] == ' ';
  }

  lemma NoColonAroundUrl()
    ensures ':' !in SqlBeforeUrl && ':' !in SqlAfterUrl
  {
  }

  /** The only ':' of the URL is that of its scheme. */
  lemma ColonsOfExampleUrl()
    ensures forall k | 0 <= k < |ExampleUrl| :: ExampleUrl[k] == ':' <==> k == 5
  {
  }

  /** The only ':' of the example query is that of the URL's scheme. */
  lemma ColonsOfExampleSql()
    ensures forall q | 0 <= q < |ExampleSql()| :: ExampleSql()[q] == ':' <==> q == |SqlBeforeUrl| + 5
  {
    var sql, b, u := ExampleSql(), |SqlBeforeUrl|, |ExampleUrl|;
    NoColonAroundUrl();
    ColonsOfExampleUrl();
    forall q | 0 <= q < |sql|
      ensures sql[q] == ':' <==> q == b + 5
    {
      if q < b {
        assert sql[q] == SqlBeforeUrl[q] && SqlBeforeUrl[q] in SqlBeforeUrl;
      } else if q < b + u {
        assert sql[q] == ExampleUrl[q - b];
      } else {
        assert sql[q] == SqlAfterUrl[q - b - u] && SqlAfterUrl[q - b - u] in SqlAfterUrl;
      }
    }
  }

  /** The URL occurs in the example query once: where it was substituted. */
  lemma ExampleUrlOccursOnce(p: nat)
    requires p + |ExampleUrl| <= |ExampleSql()|
    requires ExampleSql()[p..p + |ExampleUrl|] == ExampleUrl
    ensures p == |SqlBeforeUrl|
  {
    ColonsOfExampleUrl();
    assert ExampleSql()[p + 5] == ExampleSql()[p..p + |ExampleUrl|][5] == ':';
    ColonsOfExampleSql();
  }
}
