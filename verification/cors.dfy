/**
 * The back end's CORS origin list: the `ALLOWED_ORIGINS` environment variable
 * (or a default) split on commas, each piece stripped, empty pieces dropped.
 */
module Cors {
  import opened Wrappers
  import opened Text

  /** The origin used when `ALLOWED_ORIGINS` is not set. */
  const DefaultOrigins: string := "http://localhost:5173"

  /** An origin the list can hold: not empty, no white space at either end. */
  predicate CleanOrigin(o: string) {
    o != "" && Trimmed(o, Python)
  }

  /** `[o.strip() for o in parts if o.strip()]`. */
  function StripNonEmpty(parts: seq<string>): (origins: seq<string>)
    ensures |origins| <= |parts|
    ensures forall i :: 0 <= i < |origins| ==> CleanOrigin(origins[i])
  {
    if parts == [] then []
    else
      var head := Trim(parts[0], Python);
      var rest := StripNonEmpty(parts[1..]);
      if head != "" then [head] + rest else rest
  }

  /** The origins the middleware admits, given the variable's value (`None` when unset). */
  function AllowedOrigins(variable: Option<string>): (origins: seq<string>)
    ensures forall i :: 0 <= i < |origins| ==> CleanOrigin(origins[i])
  {
    StripNonEmpty(Split(variable.GetOr(DefaultOrigins), ','))
  }

  /** With the variable unset, the default localhost origin is the only one. */
  lemma UnsetVariableGivesDefault()
    ensures AllowedOrigins(None) == [DefaultOrigins]
  {
    DefaultIsClean();
    OriginsRoundTrip([DefaultOrigins]);
  }

  lemma DefaultIsClean()
    ensures CleanOrigin(DefaultOrigins) && ',' !in DefaultOrigins
  {
    assert DefaultOrigins[0] == 'h' && DefaultOrigins[|DefaultOrigins| - 1] == '3';
  }

  /** A variable set to the empty string admits no origin at all. */
  lemma EmptyVariableAdmitsNothing()
    ensures AllowedOrigins(Some("")) == []
  {
    assert Split("", ',') == [""];
    assert AllSpace("", Python);
  }

  /**
   * Writing a list of origins into the variable comma-separated gives back exactly that
   * list: order and duplicates are kept, and nothing is added or dropped.
   */
  lemma OriginsRoundTrip(origins: seq<string>)
    requires |origins| >= 1
    requires forall i :: 0 <= i < |origins| ==> CleanOrigin(origins[i]) && ',' !in origins[i]
    ensures AllowedOrigins(Some(Join(origins, ','))) == origins
  {
    SplitJoin(origins, ',');
    StripNonEmptyKeeps(origins);
  }

  lemma {:induction false} StripNonEmptyKeeps(origins: seq<string>)
    requires forall i :: 0 <= i < |origins| ==> CleanOrigin(origins[i])
    ensures StripNonEmpty(origins) == origins
  {
    if origins != [] {
      TrimTrimmed(origins[0], Python);
      StripNonEmptyKeeps(origins[1..]);
      assert origins == [origins[0]] + origins[1..];
    }
  }

  /** Blank pieces, such as the one between two adjacent commas, are dropped. */
  lemma BlankPiecesDropped(before: seq<string>, blank: string, after: seq<string>)
    requires AllSpace(blank, Python)
    ensures StripNonEmpty(before + [blank] + after) == StripNonEmpty(before) + StripNonEmpty(after)
  {
    StripNonEmptyConcat(before, [blank] + after);
    assert before + [blank] + after == before + ([blank] + after);
    assert ([blank] + after)[1..] == after;
  }

  lemma {:induction false} StripNonEmptyConcat(a: seq<string>, b: seq<string>)
    ensures StripNonEmpty(a + b) == StripNonEmpty(a) + StripNonEmpty(b)
  {
    if a != [] {
      StripNonEmptyConcat(a[1..], b);
      assert (a + b)[1..] == a[1..] + b;
      assert (a + b)[0] == a[0];
    } else {
      assert a + b == b;
    }
  }
}
