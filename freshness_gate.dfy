/**
 * The freshness gate of the library path: index.js re-downloads piwik.js at most once a day,
 * answering 304 when the caller's If-Modified-Since is younger than that.
 */
module FreshnessGate {
  import opened Wrappers
  import Js

  /** Inbound header names arrive lower-cased. */
  const ConditionalHeader: string := "if-modified-since"

  /** One day in milliseconds. */
  const FreshnessWindow: int := 86400000

  datatype Decision = NotModified | MustFetch

  /** The header with any trailing data removed: cut at the first ';' when it is not the
      first character, otherwise left alone. */
  function StripTrailingData(h: string): (r: string)
    ensures ';' !in h ==> r == h
    ensures |h| > 0 && h[0] == ';' ==> r == h
    ensures ';' in h && h[0] != ';' ==>
      0 < |r| < |h| && r == h[..|r|] && h[|r|] == ';' && ';' !in r
  {
    var i := Js.IndexOf(h, ';');
    if i > 0 then h[..i] else h
  }

  /** The time the caller claims for its copy: undefined when the header is absent or empty,
      otherwise the parse of the stripped header (None standing for NaN). */
  function ModifiedSince(header: Option<string>, parseDate: string -> Option<int>): (r: Option<int>)
    ensures (header.None? || header.value == "") ==> r.None?
    ensures header.Some? && header.value != "" ==> r == parseDate(StripTrailingData(header.value))
  {
    if header.Some? && header.value != "" then parseDate(StripTrailingData(header.value)) else None
  }

  /** `modifiedSince && modifiedSince > lastModified`, with lastModified one day before now. */
  function Decide(header: Option<string>, now: int, parseDate: string -> Option<int>): (d: Decision)
    ensures d == NotModified ==> header.Some? && header.value != ""
    ensures d == NotModified <==>
      ModifiedSince(header, parseDate).Some? && ModifiedSince(header, parseDate).value != 0 &&
      now - ModifiedSince(header, parseDate).value < FreshnessWindow
  {
    var since := ModifiedSince(header, parseDate);
    var lastModified := now - FreshnessWindow;
    if since.Some? && since.value != 0 && since.value > lastModified then NotModified else MustFetch
  }

  /** The inbound headers after the gate has run: a non-empty If-Modified-Since is replaced by
      its stripped form, which changes it only when a ';' follows its first character. */
  function StripConditional(headers: map<string, string>): (r: map<string, string>)
    ensures r.Keys == headers.Keys
    ensures forall k :: k in headers && k != ConditionalHeader ==> r[k] == headers[k]
    ensures ConditionalHeader in headers ==>
      r[ConditionalHeader] == StripTrailingData(headers[ConditionalHeader])
  {
    if ConditionalHeader in headers && headers[ConditionalHeader] != ""
    then headers[ConditionalHeader := StripTrailingData(headers[ConditionalHeader])]
    else headers
  }

  // ----- properties -----

  /** An absent, empty or unparseable header never blocks the fetch (fail-open). */
  lemma FailOpen(header: Option<string>, now: int, parseDate: string -> Option<int>)
    requires header.None? || header.value == "" || parseDate(StripTrailingData(header.value)).None?
             || parseDate(StripTrailingData(header.value)) == Some(0)
    ensures Decide(header, now, parseDate) == MustFetch
  {
  }

  /** For a parsed, non-zero time t the answer is 304 exactly when the copy is less than a day
      old at `now`. */
  lemma NotModifiedIffYoungerThanADay(header: string, now: int, parseDate: string -> Option<int>, t: int)
    requires header != "" && parseDate(StripTrailingData(header)) == Some(t) && t != 0
    ensures Decide(Some(header), now, parseDate) == NotModified <==> now - t < FreshnessWindow
  {
  }

  /** The gate only ever moves from 304 to fetching as time goes on. */
  lemma StalenessIsMonotone(header: Option<string>, now: int, later: int,
                                               parseDate: string -> Option<int>)
    requires now <= later
    ensures Decide(header, later, parseDate) == NotModified ==> Decide(header, now, parseDate) == NotModified
  {
  }

  /** Trailing data after a ';' does not change the decision. */
  lemma TrailingDataIgnored(date: string, trailing: string, now: int, parseDate: string -> Option<int>)
    requires date != "" && ';' !in date
    ensures Decide(Some(date + ";" + trailing), now, parseDate) == Decide(Some(date), now, parseDate)
  {
    var h := date + ";" + trailing;
    Js.IndexOfSeparator(date, ';', trailing);
    assert h[..|date|] == date;
  }
}
