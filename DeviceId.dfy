/**
 * Scoring a parsed IEEE 1284 device ID against a driver's match string
 * (`match_id`). Both IDs arrive already split into key/value pairs, as
 * `papplDeviceParseID` leaves them; the raw-string parser is not modelled.
 */
module DeviceId {
  import opened Wrappers
  import opened CStrings
  import opened CupsOptions

  /** How one match pair fares against the device ID. */
  datatype PairMatch =
    | KeyMissing      // the device ID has no value for the key
    | ExactMatch      // the values are equal ignoring case
    | PartialMatch    // the first occurrence is a whole comma-delimited field
    | Misaligned      // the first occurrence is not delimited by commas or the ends
    | NoOccurrence    // the match value does not occur in the device value

  /**
   * An occurrence of length `mlen` at `p` in `value` is a whole field: it
   * starts at the beginning or after a comma, and ends at the end or
   * before a comma.
   */
  predicate Aligned(value: string, p: nat, mlen: nat)
    requires p + mlen <= |value|
  {
    (p == 0 || value[p - 1] == ',') && (p + mlen == |value| || value[p + mlen] == ',')
  }

  /** The case `match_id` takes for one match pair. Only the FIRST occurrence is examined. */
  function Classify(did: seq<Pair>, m: Pair): (r: PairMatch)
    ensures r.KeyMissing? <==> GetOption(m.name, did).None?
    ensures r.ExactMatch? <==>
      GetOption(m.name, did).Some? && EqualIgnoringCase(m.value, GetOption(m.name, did).value)
    ensures r.NoOccurrence? ==>
      GetOption(m.name, did).Some? && !EqualIgnoringCase(m.value, GetOption(m.name, did).value)
      && forall q :: 0 <= q <= |GetOption(m.name, did).value| ==> !OccursAt(m.value, GetOption(m.name, did).value, q)
    ensures r.PartialMatch? <==>
      GetOption(m.name, did).Some? && !EqualIgnoringCase(m.value, GetOption(m.name, did).value)
      && FindFirst(m.value, GetOption(m.name, did).value).Some?
      && Aligned(GetOption(m.name, did).value, FindFirst(m.value, GetOption(m.name, did).value).value, |m.value|)
  {
    match GetOption(m.name, did)
    case None => KeyMissing
    case Some(value) =>
      if EqualIgnoringCase(m.value, value) then ExactMatch
      else match FindFirst(m.value, value)
        case None => NoOccurrence
        case Some(p) => if Aligned(value, p, |m.value|) then PartialMatch else Misaligned
  }

  /** The pair keeps the candidate alive. */
  predicate Scores(c: PairMatch)
  {
    c.ExactMatch? || c.PartialMatch?
  }

  /** Points for one pair: 2 for an exact match, 1 for a partial one. */
  function Points(c: PairMatch): (n: nat)
    ensures n > 0 <==> Scores(c)
    ensures c.ExactMatch? ==> n == 2
    ensures c.PartialMatch? ==> n == 1
    ensures n <= 2
  {
    match c
    case ExactMatch => 2
    case PartialMatch => 1
    case _ => 0
  }

  predicate AllScore(did: seq<Pair>, mid: seq<Pair>)
  {
    forall k :: 0 <= k < |mid| ==> Scores(Classify(did, mid[k]))
  }

  function SumPoints(did: seq<Pair>, mid: seq<Pair>): nat
  {
    if mid == [] then 0 else SumPoints(did, mid[..|mid| - 1]) + Points(Classify(did, mid[|mid| - 1]))
  }

  /**
   * The score `match_id` documents: 2 per exact and 1 per partial match,
   * and 0 as soon as any pair neither matches nor partially matches.
   */
  function Score(did: seq<Pair>, mid: seq<Pair>): nat
  {
    if AllScore(did, mid) then SumPoints(did, mid) else 0
  }

  /** `match_id`: walks the match pairs, accumulating and breaking out with 0 on the first failure. */
  method MatchId(did: seq<Pair>, mid: seq<Pair>) returns (score: nat)
    ensures score == Score(did, mid)
    ensures mid == [] ==> score == 0
    ensures (exists k :: 0 <= k < |mid| && GetOption(mid[k].name, did).None?) ==> score == 0
  {
    if |mid| == 0 {
      return 0;
    }
    score := 0;
    var i := 0;
    while i < |mid|
      invariant 0 <= i <= |mid|
      invariant AllScore(did, mid[..i]) && score == SumPoints(did, mid[..i])
    {
      var current := mid[i];
      assert mid[..i + 1][..i] == mid[..i];
      var value := GetOption(current.name, did);
      if value.None? {
        assert Classify(did, mid[i]) == KeyMissing;
        score := 0;
        break;
      }
      if EqualIgnoringCase(current.value, value.value) {
        assert Classify(did, mid[i]) == ExactMatch;
        score := score + 2;
      } else {
        var valptr := FindFirst(current.value, value.value);
        if valptr.Some? {
          var mlen := |current.value|;
          if Aligned(value.value, valptr.value, mlen) {
            assert Classify(did, mid[i]) == PartialMatch;
            score := score + 1;
          } else {
            assert Classify(did, mid[i]) == Misaligned;
            score := 0;
            break;
          }
        } else {
          assert Classify(did, mid[i]) == NoOccurrence;
          score := 0;
          break;
        }
      }
      i := i + 1;
    }
    assert i == |mid| ==> mid[..i] == mid;
  }

  /**
   * Appending one match pair: an exact match adds exactly 2, a partial
   * match exactly 1, and anything else makes the whole score 0; a score
   * that is already lost stays 0.
   */
  lemma ScoreAppend(did: seq<Pair>, mid: seq<Pair>, p: Pair)
    ensures var c := Classify(did, p);
      Score(did, mid + [p]) == if AllScore(did, mid) && Scores(c) then Score(did, mid) + Points(c) else 0
    ensures Classify(did, p) == ExactMatch && AllScore(did, mid) ==> Score(did, mid + [p]) == Score(did, mid) + 2
    ensures Classify(did, p) == PartialMatch && AllScore(did, mid) ==> Score(did, mid + [p]) == Score(did, mid) + 1
  {
    var m := mid + [p];
    assert m[..|m| - 1] == mid;
    assert m[|m| - 1] == p;
    if AllScore(did, mid) && Scores(Classify(did, p)) {
      assert AllScore(did, m) by {
        forall k | 0 <= k < |m| ensures Scores(Classify(did, m[k])) {
          if k < |mid| { assert m[k] == mid[k]; }
        }
      }
    } else if !AllScore(did, mid) {
      var k :| 0 <= k < |mid| && !Scores(Classify(did, mid[k]));
      assert m[k] == mid[k];
    }
  }

  lemma {:induction false} SumPointsBounds(did: seq<Pair>, mid: seq<Pair>)
    ensures SumPoints(did, mid) <= 2 * |mid|
    ensures AllScore(did, mid) ==> |mid| <= SumPoints(did, mid)
  {
    if mid != [] {
      var front := mid[..|mid| - 1];
      SumPointsBounds(did, front);
      if AllScore(did, mid) {
        assert AllScore(did, front) by {
          forall k | 0 <= k < |front| ensures Scores(Classify(did, front[k])) {
            assert front[k] == mid[k];
          }
        }
        assert Scores(Classify(did, mid[|mid| - 1]));
      }
    }
  }

  /**
   * A nonzero score lies between one and two points per match pair, and it
   * is nonzero exactly when there are match pairs and every one of them
   * matches or partially matches.
   */
  lemma ScoreBounds(did: seq<Pair>, mid: seq<Pair>)
    ensures Score(did, mid) <= 2 * |mid|
    ensures Score(did, mid) > 0 ==> |mid| <= Score(did, mid)
    ensures Score(did, mid) > 0 <==> (mid != [] && AllScore(did, mid))
  {
    SumPointsBounds(did, mid);
  }

  /** When every match pair matches exactly, the score is 2 per pair. */
  lemma {:induction false} AllExactScore(did: seq<Pair>, mid: seq<Pair>)
    requires forall k :: 0 <= k < |mid| ==> Classify(did, mid[k]) == ExactMatch
    ensures Score(did, mid) == 2 * |mid|
  {
    if mid != [] {
      var front := mid[..|mid| - 1];
      assert mid == front + [mid[|mid| - 1]];
      assert forall k :: 0 <= k < |front| ==> front[k] == mid[k];
      AllExactScore(did, front);
      ScoreAppend(did, front, mid[|mid| - 1]);
    }
  }

  /**
   * Only the first occurrence is examined: MODEL X100 against X1000,X100
   * meets X1000 first, finds it misaligned and scores 0, although X100 is
   * a field further on.
   */
  lemma FirstOccurrenceOnly()
    ensures Score([Pair("MODEL", "X1000,X100")], [Pair("MODEL", "X100")]) == 0
  {
    var did := [Pair("MODEL", "X1000,X100")];
    assert GetOption("MODEL", did) == Some("X1000,X100");
    assert !EqualIgnoringCase("X100", "X1000,X100");
    assert OccursAt("X100", "X1000,X100", 0);
    assert FindFirst("X100", "X1000,X100") == Some(0);
    assert Classify(did, Pair("MODEL", "X100")) == Misaligned;
  }

  /**
   * An exact manufacturer and a model that is one field of a list:
   * 2 + 1 = 3.
   */
  lemma ExactAndPartial()
    ensures Score([Pair("MANUFACTURER", "Acme"), Pair("MODEL", "X100,X200")],
                  [Pair("MANUFACTURER", "Acme"), Pair("MODEL", "X100")]) == 3
  {
    var did := [Pair("MANUFACTURER", "Acme"), Pair("MODEL", "X100,X200")];
    var mid := [Pair("MANUFACTURER", "Acme"), Pair("MODEL", "X100")];
    assert EqualIgnoringCase("MANUFACTURER", "MANUFACTURER");
    assert GetOption("MANUFACTURER", did) == Some("Acme");
    assert EqualIgnoringCase("Acme", "Acme");
    assert Classify(did, mid[0]) == ExactMatch;
    assert !EqualIgnoringCase("MANUFACTURER", "MODEL");
    assert EqualIgnoringCase("MODEL", "MODEL");
    assert GetOption("MODEL", did) == Some("X100,X200");
    assert !EqualIgnoringCase("X100", "X100,X200");
    assert OccursAt("X100", "X100,X200", 0);
    assert FindFirst("X100", "X100,X200") == Some(0);
    assert Classify(did, mid[1]) == PartialMatch;
    ScoreAppend(did, [], mid[0]);
    assert [mid[0]] + [mid[1]] == mid;
    ScoreAppend(did, [mid[0]], mid[1]);
  }
}
