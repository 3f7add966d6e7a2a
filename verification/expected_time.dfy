/**
 * Parsing of a departure's expected time (parse_expected_time).
 *
 * Python's `datetime.fromisoformat`, together with the step that tags a
 * timestamp without an offset as UTC, belongs to a library outside this model:
 * it is the parameter `fromIso`, which yields an absolute instant or `None`
 * where the library raises ValueError or TypeError.
 */
module ExpectedTime {
  import opened Wrappers

  /** An absolute point in time; only its order matters to the pipeline. */
  type Instant = int

  /** The number of 'Z' characters in `s`. */
  function CountZ(s: string): nat {
    if |s| == 0 then 0 else (if s[0] == 'Z' then 1 else 0) + CountZ(s[1..])
  }

  /** `str.replace("Z", "+00:00")`: every 'Z' becomes the UTC offset "+00:00". */
  function ReplaceZ(s: string): string {
    if |s| == 0 then ""
    else (if s[0] == 'Z' then "+00:00" else [s[0]]) + ReplaceZ(s[1..])
  }

  /** No 'Z' survives, each one grows by five characters, and a string without 'Z' is unchanged. */
  lemma {:induction false} ReplaceZSpec(s: string)
    ensures 'Z' !in ReplaceZ(s)
    ensures |ReplaceZ(s)| == |s| + 5 * CountZ(s)
    ensures 'Z' !in s ==> ReplaceZ(s) == s
    decreases |s|
  {
    if |s| > 0 {
      ReplaceZSpec(s[1..]);
      var utc := "+00:00";
      assert 'Z' !in utc by {
        assert utc == ['+', '0', '0', ':', '0', '0'];
      }
      assert s == [s[0]] + s[1..];
      if 'Z' !in s {
        assert 'Z' !in s[1..];
      }
    }
  }

  /** The replacement works character by character, so it distributes over concatenation. */
  lemma {:induction false} ReplaceZAppend(a: string, b: string)
    ensures ReplaceZ(a + b) == ReplaceZ(a) + ReplaceZ(b)
    decreases |a|
  {
    if |a| == 0 {
      assert a + b == b;
    } else {
      assert (a + b)[0] == a[0];
      assert (a + b)[1..] == a[1..] + b;
      ReplaceZAppend(a[1..], b);
    }
  }

  /**
   * The expected time of a departure: `None` when the field is absent or the
   * empty string, otherwise the library's reading of the string with every
   * 'Z' replaced by "+00:00".
   */
  function ParseExpectedTime(s: Option<string>, fromIso: string -> Option<Instant>): (r: Option<Instant>)
    ensures s.None? ==> r.None?
    ensures s == Some("") ==> r.None?
    ensures s.Some? && 'Z' !in s.value && s.value != "" ==> r == fromIso(s.value)
  {
    match s
    case None => None
    case Some(text) =>
      ReplaceZSpec(text);
      if text == "" then None else fromIso(ReplaceZ(text))
  }

  /** A trailing "Z" and an explicit "+00:00" offset denote the same instant. */
  lemma ZuluIsUtc(stamp: string, fromIso: string -> Option<Instant>)
    ensures ParseExpectedTime(Some(stamp + "Z"), fromIso)
         == ParseExpectedTime(Some(stamp + "+00:00"), fromIso)
  {
    var utc := "+00:00";
    var z := "Z";
    assert ReplaceZ(utc) == utc by {
      ReplaceZSpec(utc);
      assert 'Z' !in utc by {
        assert utc == ['+', '0', '0', ':', '0', '0'];
      }
    }
    assert ReplaceZ(z) == utc by {
      assert z[0] == 'Z' && z[1..] == "";
    }
    assert ReplaceZ(stamp + z) == ReplaceZ(stamp + utc) by {
      ReplaceZAppend(stamp, z);
      ReplaceZAppend(stamp, utc);
    }
    assert |stamp + z| > 0 && |stamp + utc| > 0;
  }
}
