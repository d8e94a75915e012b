/**
 * The parts of a log payload that the reducer inspects by JSON type rather than by
 * truthiness alone: the `content`/`text` of a `message` item and the `summary` of a
 * `reasoning` item, together with the pure functions that read text out of them.
 */
module Payloads {
  import opened Wrappers

  /** JavaScript `a || b` on two strings: the first one that is not empty. */
  function Or(a: string, b: string): (r: string)
    ensures r == "" <==> a == "" && b == ""
    ensures a != "" ==> r == a
    ensures a == "" ==> r == b
  {
    if a != "" then a else b
  }

  /** The value held by a payload's `content` or `text` field. */
  datatype Content =
    | Text(s: string)            // a JSON string
    | Parts(items: seq<Part>)    // a JSON array (always truthy, even when empty)
    | Opaque(truthy: bool)       // missing, null, a number, a boolean or an object

  /** One element of a content array. A field is `Some` exactly when it holds a JSON string. */
  datatype Part =
    | StringPart(s: string)
    | ObjectPart(text: Option<string>, outputText: Option<string>)
    | OtherPart                  // null, a number or a boolean

  predicate Truthy(c: Content) {
    match c
    case Text(s) => s != ""
    case Parts(_) => true
    case Opaque(t) => t
  }

  /** `payload.content || payload.text || ""` */
  function Either(content: Content, text: Content): (r: Content)
    ensures Truthy(r) ==> r == content || r == text
    ensures Truthy(content) ==> r == content
    ensures !Truthy(content) && Truthy(text) ==> r == text
    ensures !Truthy(content) && !Truthy(text) ==> !Truthy(r)
  {
    if Truthy(content) then content else if Truthy(text) then text else Text("")
  }

  /** What one array element contributes: itself, else `text`, else `output_text`, else nothing. */
  function PartText(p: Part): (r: string)
    ensures p.StringPart? ==> r == p.s
    ensures p.ObjectPart? && p.text.Some? ==> r == p.text.value
    ensures p.ObjectPart? && p.text.None? && p.outputText.Some? ==> r == p.outputText.value
    ensures p.OtherPart? || p == ObjectPart(None, None) ==> r == ""
  {
    match p
    case StringPart(s) => s
    case ObjectPart(text, outputText) =>
      if text.Some? then text.value else if outputText.Some? then outputText.value else ""
    case OtherPart => ""
  }

  /** `items.map(PartText).join("")` */
  function PartsText(items: seq<Part>): (r: string)
    ensures r == "" <==> forall i :: 0 <= i < |items| ==> PartText(items[i]) == ""
    ensures forall i :: 0 <= i < |items| ==> |PartText(items[i])| <= |r|
  {
    if items == [] then "" else PartText(items[0]) + PartsText(items[1..])
  }

  /** extractContentText: a string is itself, an array the joined text of its elements, anything else "". */
  function ExtractContentText(c: Content): (r: string)
    ensures c.Text? ==> r == c.s
    ensures c.Opaque? ==> r == ""
    ensures c == Parts([]) ==> r == ""
  {
    match c
    case Text(s) => s
    case Parts(items) => PartsText(items)
    case Opaque(_) => ""
  }

  /** One element joins to its own text; with `PartsTextAppend` this fixes the join of any array. */
  lemma PartsTextSingle(p: Part)
    ensures PartsText([p]) == PartText(p)
  {
    assert [p][1..] == [];
  }

  /** Mapping then joining splits over concatenation: two arrays read like one. */
  lemma {:induction false} PartsTextAppend(a: seq<Part>, b: seq<Part>)
    ensures PartsText(a + b) == PartsText(a) + PartsText(b)
  {
    if a == [] {
      assert a + b == b;
    } else {
      assert (a + b)[0] == a[0];
      assert (a + b)[1..] == a[1..] + b;
      PartsTextAppend(a[1..], b);
    }
  }

  /** An array whose elements are neither strings nor objects with a string `text`/`output_text` reads as "". */
  lemma {:induction false} PartsTextOfObjectsWithoutText(items: seq<Part>)
    requires forall i :: 0 <= i < |items| ==> items[i] == ObjectPart(None, None) || items[i] == OtherPart
    ensures PartsText(items) == ""
  {
    if items != [] {
      PartsTextOfObjectsWithoutText(items[1..]);
    }
  }

  /** One entry of a reasoning `summary` array; a field is `Some` exactly when it holds a JSON string. */
  datatype SummaryEntry = SummaryEntry(summaryText: Option<string>, text: Option<string>)

  /** The value held by a reasoning payload's `summary` field. */
  datatype Summary =
    | SummaryList(entries: seq<SummaryEntry>)
    | SummaryString(s: string)
    | SummaryOther               // missing, null, a number, a boolean or an object

  // ---- cli.js: parseReasoningSummary, a type test on each entry ----

  predicate HasString(e: SummaryEntry) {
    e.summaryText.Some? || e.text.Some?
  }

  function EntryString(e: SummaryEntry): string
    requires HasString(e)
  {
    if e.summaryText.Some? then e.summaryText.value else e.text.value
  }

  /** The early-return search over the array: the first entry holding a string, even an empty one. */
  function FirstStringEntry(entries: seq<SummaryEntry>): (r: string)
    ensures (forall j :: 0 <= j < |entries| ==> !HasString(entries[j])) ==> r == ""
    ensures forall i :: (0 <= i < |entries| && HasString(entries[i]) && forall j :: 0 <= j < i ==> !HasString(entries[j]))
              ==> r == EntryString(entries[i])
  {
    if entries == [] then ""
    else if HasString(entries[0]) then EntryString(entries[0])
    else FirstStringEntry(entries[1..])
  }

  /** parseReasoningSummary: a string summary verbatim, an array searched, anything else "". */
  function ParseReasoningSummary(summary: Summary): (r: string)
    ensures summary.SummaryString? ==> r == summary.s
    ensures summary.SummaryOther? ==> r == ""
    ensures summary.SummaryList? ==> r == FirstStringEntry(summary.entries)
  {
    match summary
    case SummaryList(entries) => FirstStringEntry(entries)
    case SummaryString(s) => s
    case SummaryOther => ""
  }

  // ---- public/app.js: `summary.find((s) => s && (s.summary_text || s.text))`, a truthiness test ----

  predicate HasText(e: SummaryEntry) {
    (e.summaryText.Some? && e.summaryText.value != "") || (e.text.Some? && e.text.value != "")
  }

  function EntryText(e: SummaryEntry): string
    requires HasText(e)
  {
    if e.summaryText.Some? && e.summaryText.value != "" then e.summaryText.value else e.text.value
  }

  /** The first entry with a non-empty `summary_text` or `text`, or "" when there is none. */
  function FirstTextEntry(entries: seq<SummaryEntry>): (r: string)
    ensures r == "" <==> forall j :: 0 <= j < |entries| ==> !HasText(entries[j])
    ensures forall i :: (0 <= i < |entries| && HasText(entries[i]) && forall j :: 0 <= j < i ==> !HasText(entries[j]))
              ==> r == EntryText(entries[i])
    ensures r != "" ==> exists i :: 0 <= i < |entries| && HasText(entries[i]) && r == EntryText(entries[i])
  {
    if entries == [] then ""
    else if HasText(entries[0]) then EntryText(entries[0])
    else FirstTextEntry(entries[1..])
  }

  /** The reasoning text the app reads: only an array summary is searched; anything else yields "". */
  function FindReasoningSummary(summary: Summary): (r: string)
    ensures !summary.SummaryList? ==> r == ""
    ensures summary.SummaryList? ==> r == FirstTextEntry(summary.entries)
  {
    if summary.SummaryList? then FirstTextEntry(summary.entries) else ""
  }

  /** Where the two readers disagree: an entry whose `summary_text` is an empty string. */
  lemma ReadersDisagreeOnEmptyString()
    ensures var s := SummaryList([SummaryEntry(Some(""), None), SummaryEntry(None, Some("plan"))]);
      ParseReasoningSummary(s) == "" && FindReasoningSummary(s) == "plan"
  {
    var e := [SummaryEntry(Some(""), None), SummaryEntry(None, Some("plan"))];
    assert e[1..] == [SummaryEntry(None, Some("plan"))];
  }
}
