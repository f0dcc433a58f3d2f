/** The `/YYYY/MM/` fragment of a blog URL (the regular expression
    `/(\d{4})/(\d{2})/`, first match) and the English month names both the
    Python and the JavaScript services print. */
module DatePath {
  import opened Text

  const MonthNames: seq<string> := ["January", "February", "March", "April", "May", "June",
    "July", "August", "September", "October", "November", "December"]

  function MonthName(m: nat): string
    requires 1 <= m <= 12
  {
    MonthNames[m - 1]
  }

  /** `/`, four digits, `/`, two digits, `/` start at position `i`. */
  predicate DatePathAt(s: string, i: nat) {
    i + 9 <= |s| && s[i] == '/' && AllDigits(s[i + 1..i + 5]) && s[i + 5] == '/' &&
    AllDigits(s[i + 6..i + 8]) && s[i + 8] == '/'
  }

  /** First position at or after `from` where the fragment starts. */
  function FindFrom(s: string, from: nat): (r: Option<nat>)
    requires from <= |s|
    decreases |s| - from
    ensures r.Some? ==> from <= r.value && DatePathAt(s, r.value)
    ensures forall i :: from <= i && (r.None? || i < r.value) ==> !DatePathAt(s, i)
  {
    if DatePathAt(s, from) then Some(from)
    else if from + 9 >= |s| then
      assert forall i :: from < i ==> !DatePathAt(s, i);
      None
    else FindFrom(s, from + 1)
  }

  datatype Fragment = Fragment(year: string, month: string)

  /** The year and month digit groups of the first match, if any. */
  function Search(url: string): (r: Option<Fragment>)
    ensures r.Some? <==> exists i :: 0 <= i < |url| && DatePathAt(url, i)
    ensures r.Some? ==> |r.value.year| == 4 && AllDigits(r.value.year) &&
                        |r.value.month| == 2 && AllDigits(r.value.month)
  {
    match FindFrom(url, 0)
    case None => None
    case Some(i) => Some(Fragment(url[i + 1..i + 5], url[i + 6..i + 8]))
  }

  /** A URL of the shape `<prefix>/YYYY/MM/<rest>` yields that year and
      month, provided the fragment cannot start inside the prefix. */
  lemma {:induction false} SearchFindsFragment(prefix: string, year: string, month: string, rest: string)
    requires |year| == 4 && AllDigits(year) && |month| == 2 && AllDigits(month)
    requires forall i :: 0 <= i < |prefix| ==> !DatePathAt(prefix + "/" + year + "/" + month + "/" + rest, i)
    ensures Search(prefix + "/" + year + "/" + month + "/" + rest) == Some(Fragment(year, month))
  {
    var url := prefix + "/" + year + "/" + month + "/" + rest;
    var p := |prefix|;
    assert url[p + 1..p + 5] == year;
    assert url[p + 6..p + 8] == month;
    assert DatePathAt(url, p);
    var r := FindFrom(url, 0);
    assert r.Some? && r.value == p;
  }
}
