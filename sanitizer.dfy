/**
 * Recovery of the real URL from a `custom-http://…` request URL:
 * `absoluteString.replacingOccurrences(of: "custom-", with: "")`, which
 * scans left to right and deletes every non-overlapping occurrence of the
 * marker, wherever it stands.
 */
module Sanitizer {

  const Marker := "custom-"

  /** The marker occurs in `s` starting at index `i`. */
  predicate MarkerAt(s: string, i: nat)
  {
    i + |Marker| <= |s| && s[i..i + |Marker|] == Marker
  }

  predicate ContainsMarker(s: string)
  {
    exists i: nat :: i < |s| && MarkerAt(s, i)
  }

  /** When `s` does not start with the marker, its markers are those of `s[1..]`. */
  lemma ContainsMarkerTail(s: string)
    requires |s| >= |Marker| && s[..|Marker|] != Marker
    ensures ContainsMarker(s) <==> ContainsMarker(s[1..])
  {
    if ContainsMarker(s) {
      var i: nat :| i < |s| && MarkerAt(s, i);
      assert i != 0;
      assert s[1..][i - 1..i - 1 + |Marker|] == s[i..i + |Marker|];
      assert MarkerAt(s[1..], i - 1);
    }
    if ContainsMarker(s[1..]) {
      var i: nat :| i < |s[1..]| && MarkerAt(s[1..], i);
      assert s[i + 1..i + 1 + |Marker|] == s[1..][i..i + |Marker|];
      assert MarkerAt(s, i + 1);
    }
  }

  /**
   * `s` with every occurrence of the marker found by a left-to-right scan
   * deleted: the result is never longer, and it shrinks by whole markers.
   */
  function Sanitize(s: string): (r: string)
    ensures |r| <= |s| && (|s| - |r|) % |Marker| == 0
  {
    if |s| < |Marker| then s
    else if s[..|Marker|] == Marker then Sanitize(s[|Marker|..])
    else [s[0]] + Sanitize(s[1..])
  }

  /** Sanitising changes a string exactly when it contains the marker. */
  lemma {:induction false} UnchangedIffNoMarker(s: string)
    ensures Sanitize(s) == s <==> !ContainsMarker(s)
  {
    if |s| < |Marker| {
      assert !ContainsMarker(s);
    } else if s[..|Marker|] == Marker {
      assert MarkerAt(s, 0);
    } else {
      ContainsMarkerTail(s);
      UnchangedIffNoMarker(s[1..]);
      assert Sanitize(s) == [s[0]] + Sanitize(s[1..]);
      assert s == [s[0]] + s[1..];
    }
  }

  /** A leading marker is deleted and the scan goes on behind it. */
  lemma DropsLeadingMarker(s: string)
    ensures Sanitize(Marker + s) == Sanitize(s)
  {
  }

  /** The request URL of the custom scheme maps back to the real URL it wraps. */
  lemma StripsSchemeMarker(url: string)
    requires !ContainsMarker(url)
    ensures Sanitize(Marker + url) == url
  {
    DropsLeadingMarker(url);
    UnchangedIffNoMarker(url);
  }

  /**
   * The deletion is not confined to a prefix: when no marker starts inside
   * `x` (reading on into what follows it), a marker after `x` is deleted and
   * the scan carries on behind it.
   */
  lemma {:induction false} DeletesMarkerAfterClearPrefix(x: string, y: string)
    requires forall i: nat :: i < |x| ==> !MarkerAt(x + Marker + y, i)
    ensures Sanitize(x + Marker + y) == x + Sanitize(y)
  {
    var s := x + Marker + y;
    if x == [] {
      assert s[..|Marker|] == Marker;
      assert s[|Marker|..] == y;
    } else {
      ClearPrefixShifts(x, y);
      DeletesMarkerAfterClearPrefix(x[1..], y);
      assert Sanitize(s) == [s[0]] + Sanitize(s[1..]);
      assert [x[0]] + x[1..] == x;
    }
  }

  /** A clear non-empty prefix: the scan keeps its first character and goes on with a clear prefix. */
  lemma ClearPrefixShifts(x: string, y: string)
    requires x != []
    requires forall i: nat :: i < |x| ==> !MarkerAt(x + Marker + y, i)
    ensures (x + Marker + y)[..|Marker|] != Marker
    ensures (x + Marker + y)[1..] == x[1..] + Marker + y
    ensures forall i: nat :: i < |x[1..]| ==> !MarkerAt(x[1..] + Marker + y, i)
  {
    var s := x + Marker + y;
    assert !MarkerAt(s, 0);
    assert s[1..] == x[1..] + Marker + y;
    forall i: nat | i < |x[1..]|
      ensures !MarkerAt(x[1..] + Marker + y, i)
    {
      assert !MarkerAt(s, i + 1);
      assert s[i + 1..i + 1 + |Marker|] == s[1..][i..i + |Marker|];
    }
  }

  /** Every occurrence goes, not only the leading one. */
  lemma DeletesEveryOccurrence()
    ensures Sanitize(Marker + ("http://h/" + Marker + "a.js")) == "http://h/" + "a.js"
  {
    var prefix := "http://h/";
    var s := prefix + Marker + "a.js";
    forall i: nat | i < |prefix|
      ensures !MarkerAt(s, i)
    {
      assert s[i] == prefix[i] != 'c';
    }
    DeletesMarkerAfterClearPrefix(prefix, "a.js");
    assert Sanitize("a.js") == "a.js";
    DropsLeadingMarker(s);
  }

  /**
   * One left-to-right pass can leave a marker behind: deleting an inner
   * occurrence may join the text around it into a new one.
   */
  lemma MayLeaveMarker()
    ensures Sanitize("custcustom-om-") == "custom-"
    ensures ContainsMarker(Sanitize("custcustom-om-"))
  {
    var s := "cust" + Marker + "om-";
    forall i: nat | i < 4
      ensures !MarkerAt(s, i)
    {
      assert s[i + 4] != '-';
    }
    DeletesMarkerAfterClearPrefix("cust", "om-");
    assert "custcustom-om-" == s;
    assert MarkerAt("custom-", 0);
  }
}
