/** `StatusBadge` and `getStatusType`: a case-insensitive lookup of a status
    string in a table of sixteen known statuses, with the raw text as the
    fallback for unknown ones. */
module StatusBadge {
  import opened Optional
  import opened JsPrims

  /** The table's keys, all lower-case. */
  const StatusKeys: set<string> :=
    {"pending", "approved", "rejected", "cancelled",
     "present", "absent", "late", "leave",
     "processing", "paid", "reviewed",
     "active", "inactive",
     "completed", "scheduled", "instant"}

  /** The table's label for each key: the key with its first letter in upper case. */
  function StatusLabel(key: string): (text: string)
    requires key in StatusKeys
    ensures |text| == |key| && text[1..] == key[1..]
    ensures text[0] == UpperChar(key[0]) && IsUpperAscii(text[0])
  {
    [UpperChar(key[0])] + key[1..]
  }

  /** A badge's own label, typed back in, is recognised as its status. */
  lemma LabelRecognised(key: string)
    requires key in StatusKeys
    ensures GetStatusType(StatusLabel(key)) == Some(key)
  {
    KeysLowerCase(key);
    CapitalizedLowers(key);
  }

  /** Every table key is written in lower-case letters. */
  lemma KeysLowerCase(key: string)
    requires key in StatusKeys
    ensures forall i :: 0 <= i < |key| ==> IsLowerAscii(key[i])
  {
  }

  /** Lower-casing a lower-case word whose first letter was upper-cased gives the word back. */
  lemma CapitalizedLowers(word: string)
    requires |word| >= 1 && forall i :: 0 <= i < |word| ==> IsLowerAscii(word[i])
    ensures Lower([UpperChar(word[0])] + word[1..]) == word
  {
    var text := [UpperChar(word[0])] + word[1..];
    assert Lower(text)[0] == word[0];
  }

  /** `getStatusType(status)`, as corrected: the lower-cased status when it
      is one of the table's own keys, otherwise null. */
  function GetStatusType(status: string): (r: Option<string>)
    ensures r.Some? <==> Lower(status) in StatusKeys
    ensures r.Some? ==> r.value == Lower(status) && r.value in StatusKeys
  {
    var normalized := Lower(status);
    if normalized in StatusKeys then Some(normalized) else None
  }

  /** Statuses that differ only in the case of ASCII letters are looked up alike. */
  lemma GetStatusTypeCaseInsensitive(a: string, b: string)
    requires Lower(a) == Lower(b)
    ensures GetStatusType(a) == GetStatusType(b)
  {
  }

  /** A recognised status is recognised as itself. */
  lemma GetStatusTypeIdempotent(status: string)
    requires GetStatusType(status).Some?
    ensures GetStatusType(GetStatusType(status).value) == GetStatusType(status)
  {
    LowerIdempotent(status);
  }

  /** Upper-casing a recognised status does not stop it being recognised. */
  lemma UpperCaseRecognised(status: string)
    requires GetStatusType(status).Some?
    ensures GetStatusType(Upper(status)) == GetStatusType(status)
  {
    assert Lower(Upper(status)) == Lower(status) by {
      forall i | 0 <= i < |status| ensures LowerChar(UpperChar(status[i])) == LowerChar(status[i]) {
      }
    }
  }

  /** The lookup as written: `statusConfigs[normalized]` is also truthy for
      the members every object inherits, so a status that lower-cases to
      "constructor" or "__proto__" is returned as if it were known. */
  function GetStatusTypeAsWritten(status: string): (r: Option<string>)
    ensures !InheritedObjectMember(Lower(status)) ==> r == GetStatusType(status)
    ensures InheritedObjectMember(Lower(status)) ==> r == Some(Lower(status))
  {
    var normalized := Lower(status);
    if normalized in StatusKeys || InheritedObjectMember(normalized) then Some(normalized) else None
  }

  /** "Constructor" is accepted as a status type by the code as written, and
      the accepted value is not one of the table's keys. */
  lemma ConstructorAcceptedAsWritten()
    ensures GetStatusTypeAsWritten("Constructor") == Some("constructor")
    ensures "constructor" !in StatusKeys
    ensures GetStatusType("Constructor").None?
  {
    assert Lower("Constructor") == "constructor" by {
      assert LowerChar('C') == 'c';
      LowerFixed("onstructor");
      assert "Constructor" == ['C'] + "onstructor";
      assert forall i :: 1 <= i < 11 ==> Lower("Constructor")[i] == "onstructor"[i - 1];
    }
    assert |"constructor"| == 11;
  }

  // ---------------------------------------------------------------------------
  // Rendering
  // ---------------------------------------------------------------------------

  /** What the badge shows: the table label (with its icon when asked for),
      or the status text exactly as given. `Throws` is the render error an
      inherited member's missing `icon` causes. */
  datatype Badge = Known(text: string, withIcon: bool) | Raw(text: string) | Throws

  /** `StatusBadge`, as corrected. */
  function RenderBadge(status: string, showIcon: bool): (b: Badge)
    ensures GetStatusType(status).None? ==> b == Raw(status)
    ensures GetStatusType(status).Some? ==> b == Known(StatusLabel(Lower(status)), showIcon)
  {
    match GetStatusType(status)
    case None => Raw(status)
    case Some(key) => Known(StatusLabel(key), showIcon)
  }

  /** `StatusBadge` as written: an inherited member counts as a config, and
      drawing its (missing) icon throws; without the icon the badge is blank. */
  function RenderBadgeAsWritten(status: string, showIcon: bool): (b: Badge)
    ensures !InheritedObjectMember(Lower(status)) ==> b == RenderBadge(status, showIcon)
    ensures InheritedObjectMember(Lower(status)) && showIcon ==> b == Throws
    ensures InheritedObjectMember(Lower(status)) && !showIcon ==> b == Known("", false)
  {
    var normalized := Lower(status);
    if normalized in StatusKeys then Known(StatusLabel(normalized), showIcon)
    else if InheritedObjectMember(normalized) then (if showIcon then Throws else Known("", false))
    else Raw(status)
  }

  /** An unknown status is shown as typed, not lower-cased. */
  lemma UnknownShownVerbatim(status: string)
    requires GetStatusType(status).None?
    ensures RenderBadge(status, true) == Raw(status)
  {
  }
}
