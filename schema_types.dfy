/**
 * The Mongoose String path options the schemas use: `trim: true` (a setter
 * applied whenever the path is set, on documents and on updates) and
 * `required: true` (which rejects a missing value and the empty string).
 */
module SchemaTypes {
  import opened Wrappers
  import opened Text

  /** A failed `validate()`; the handlers turn it into a 500 response. */
  datatype ValidationError = ValidationError(path: string)

  /** What a stored required, trimmed String path holds. */
  predicate RequiredText(s: string) {
    s != "" && IsTrimmed(s)
  }

  predicate TrimmedOpt(v: Option<string>) {
    v.Some? ==> IsTrimmed(v.value)
  }

  predicate AllTrimmed(xs: seq<string>) {
    forall i :: 0 <= i < |xs| ==> IsTrimmed(xs[i])
  }

  /** A required trimmed path accepts a value that is present and not blank. */
  predicate RequiredPresent(v: Option<string>) {
    v.Some? && Trim(v.value) != ""
  }

  /** A required path that may be absent from an update: only a present blank
      value is rejected. */
  predicate RequiredIfPresent(v: Option<string>) {
    v.Some? ==> Trim(v.value) != ""
  }

  /** The `trim` setter on an optional path. */
  function TrimOpt(v: Option<string>): (r: Option<string>)
    ensures TrimmedOpt(r)
    ensures r.Some? <==> v.Some?
    ensures v.Some? ==> r.value == Trim(v.value)
  {
    if v.Some? then Some(Trim(v.value)) else None
  }

  /** The `trim` setter on each element of a `[{type: String, trim: true}]` path. */
  function TrimAll(xs: seq<string>): (r: seq<string>)
    ensures |r| == |xs| && AllTrimmed(r)
    ensures forall i :: 0 <= i < |xs| ==> r[i] == Trim(xs[i])
  {
    seq(|xs|, i requires 0 <= i < |xs| => Trim(xs[i]))
  }

  function TrimAllOpt(v: Option<seq<string>>): (r: Option<seq<string>>)
    ensures r.Some? <==> v.Some?
    ensures r.Some? ==> AllTrimmed(r.value) && r.value == TrimAll(v.value)
  {
    if v.Some? then Some(TrimAll(v.value)) else None
  }

  /** An already-trimmed string list is left as it is by the setter. */
  lemma TrimAllOfTrimmed(xs: seq<string>)
    requires AllTrimmed(xs)
    ensures TrimAll(xs) == xs
  {
    forall i | 0 <= i < |xs| ensures TrimAll(xs)[i] == xs[i] {
      TrimOfTrimmed(xs[i]);
    }
  }

  /** A stored email: required, trimmed and in lower case. */
  predicate NormalEmail(e: string) {
    RequiredText(e) && HasNoUpper(e)
  }

  /** The `trim` and `lowercase` setters of the email path, in either order. */
  function NormalizeEmail(e: string): (r: string)
    ensures r == ToLower(Trim(e)) && r == Trim(ToLower(e))
  {
    TrimToLowerCommute(e);
    ToLower(Trim(e))
  }

  /** A normalised email satisfies the schema when the input was not blank,
      and normalising a stored email changes nothing. */
  lemma NormalizeEmailSpec(e: string)
    ensures |NormalizeEmail(e)| == |Trim(e)|
    ensures Trim(e) != "" ==> NormalEmail(NormalizeEmail(e))
    ensures NormalEmail(e) ==> NormalizeEmail(e) == e
  {
    var r := NormalizeEmail(e);
    assert r == Trim(ToLower(e)) && r == ToLower(Trim(e));
    assert IsTrimmed(r);
    ToLowerSpec(Trim(e));
    if NormalEmail(e) {
      TrimOfTrimmed(e);
      var l := ToLower(e);
      forall i | 0 <= i < |e| ensures l[i] == e[i] {
        assert !('A' <= e[i] <= 'Z');
      }
      assert l == e;
    }
  }
}
