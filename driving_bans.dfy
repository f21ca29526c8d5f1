/**
 * The driving-ban page scan: the lines of the page, stripped, are cut down to
 * the region strictly between two marker lines, and each line of that region
 * that is a country's display name opens a section collecting the non-blank
 * lines that follow it.
 */
module DrivingBans {
  import opened Results
  import opened Seqs
  import opened PyText

  const StartMarker := "General driving bans by countries for the whole year"
  const EndMarker := "Latest fuel prices"

  /** `list.index` raised: a marker line is not on the page. */
  datatype ScanError = MissingMarker(marker: string)

  /**
   * The scan's result as the bot iterates it: `text` maps each country to
   * its section's lines joined by spaces; `order` lists the countries in the
   * dictionary's insertion order.
   */
  datatype BanTable = BanTable(order: seq<string>, text: map<string, string>)

  /** The page's lines, each with surrounding whitespace removed. */
  function StrippedLines(page: seq<string>): seq<string> {
    seq(|page|, i requires 0 <= i < |page| => Strip(page[i]))
  }

  /** Stripping keeps one line per page line, and stripping the result again changes nothing. */
  lemma StrippedLinesIdempotent(page: seq<string>)
    ensures |StrippedLines(page)| == |page|
    ensures StrippedLines(StrippedLines(page)) == StrippedLines(page)
  {
    var lines := StrippedLines(page);
    forall i | 0 <= i < |page| ensures Strip(lines[i]) == lines[i] {
      StripIdempotent(page[i]);
    }
  }

  /** `lines.index(x)`: the first position of `x`, or `None` where Python raises. */
  function IndexOf(lines: seq<string>, x: string): (r: Option<nat>)
    ensures r.None? <==> x !in lines
    ensures r.Some? ==> r.value < |lines| && lines[r.value] == x
    ensures r.Some? ==> forall i :: 0 <= i < r.value ==> lines[i] != x
  {
    if x in lines then Some(FirstIndex(lines, x)) else None
  }

  /**
   * `lines[start+1:end]` with `start` and `end` the first positions of the
   * two markers; a missing marker is an error, the start marker first.
   */
  function Window(lines: seq<string>): (r: Result<seq<string>, ScanError>)
    ensures r == Failure(MissingMarker(StartMarker)) <==> StartMarker !in lines
    ensures r == Failure(MissingMarker(EndMarker)) <==> StartMarker in lines && EndMarker !in lines
    ensures r.Success? <==> StartMarker in lines && EndMarker in lines
    ensures r.Success? && FirstIndex(lines, StartMarker) < FirstIndex(lines, EndMarker) ==>
      r.value == lines[FirstIndex(lines, StartMarker) + 1..FirstIndex(lines, EndMarker)]
    ensures r.Success? && FirstIndex(lines, EndMarker) < FirstIndex(lines, StartMarker) ==> r.value == []
    ensures r.Success? ==> EndMarker !in r.value
  {
    match IndexOf(lines, StartMarker)
    case None => Failure(MissingMarker(StartMarker))
    case Some(start) =>
      match IndexOf(lines, EndMarker)
      case None => Failure(MissingMarker(EndMarker))
      case Some(end) => Success(if start + 1 <= end then lines[start + 1..end] else [])
  }

  /** A line opens a section: it is non-blank and a registered display name. */
  predicate IsHeader(line: string, names: set<string>) {
    line != "" && line in names
  }

  /** No line of `w` from position `i` on opens a section. */
  ghost predicate HeaderFreeFrom(w: seq<string>, i: nat, names: set<string>) {
    forall j :: i <= j < |w| ==> !IsHeader(w[j], names)
  }

  /** The display names that occur as whole lines of `w`. */
  function HeadersIn(w: seq<string>, names: set<string>): set<string> {
    set k | k in w && IsHeader(k, names)
  }

  /** The non-blank lines of `w` from position `i` up to the next header. */
  function BodyFrom(w: seq<string>, i: nat, names: set<string>): seq<string>
    decreases |w| - i
  {
    if i >= |w| then []
    else if w[i] == "" then BodyFrom(w, i + 1, names)
    else if w[i] in names then []
    else [w[i]] + BodyFrom(w, i + 1, names)
  }

  /** The section of header `k` in `w`: the body after the LAST line equal to `k`. */
  function Section(w: seq<string>, names: set<string>, k: string): seq<string>
    requires k in w
  {
    BodyFrom(w, LastIndex(w, k) + 1, names)
  }

  /** The countries of `order` appear in `w`, in the order of their first occurrence there. */
  ghost predicate FirstSeenOrder(w: seq<string>, order: seq<string>) {
    && (forall i :: 0 <= i < |order| ==> order[i] in w)
    && (forall i, j :: 0 <= i < j < |order| ==> FirstIndex(w, order[i]) < FirstIndex(w, order[j]))
  }

  /** A body holds only non-blank, non-header lines of the text it was taken from. */
  lemma {:induction false} BodyLines(w: seq<string>, i: nat, names: set<string>)
    ensures forall x :: x in BodyFrom(w, i, names) ==> x in w[i..] && x != "" && !IsHeader(x, names)
    decreases |w| - i
  {
    if i < |w| && (w[i] == "" || w[i] !in names) {
      BodyLines(w, i + 1, names);
      assert w[i + 1..] == w[i..][1..];
    }
  }

  /** Past a header, or when the new line is blank or a header, one more line leaves a body as it was. */
  lemma {:induction false} BodyAppendStops(p: seq<string>, x: string, names: set<string>, i: nat, j: nat)
    requires i <= |p|
    requires (i <= j < |p| && IsHeader(p[j], names)) || x == "" || x in names
    ensures BodyFrom(p + [x], i, names) == BodyFrom(p, i, names)
    decreases |p| - i
  {
    var q := p + [x];
    if i == |p| {
      assert q[i] == x;
      assert BodyFrom(q, i + 1, names) == [];
    } else {
      assert q[i] == p[i];
      if p[i] == "" || p[i] !in names {
        BodyAppendStops(p, x, names, i + 1, j);
      }
    }
  }

  /** While no header follows position `i`, one more plain line extends the body by that line. */
  lemma {:induction false} BodyAppendGrows(p: seq<string>, x: string, names: set<string>, i: nat)
    requires i <= |p| && HeaderFreeFrom(p, i, names) && x != "" && x !in names
    ensures BodyFrom(p + [x], i, names) == BodyFrom(p, i, names) + [x]
    decreases |p| - i
  {
    var q := p + [x];
    if i == |p| {
      assert q[i] == x;
      assert BodyFrom(q, i + 1, names) == [];
    } else {
      assert q[i] == p[i];
      BodyAppendGrows(p, x, names, i + 1);
    }
  }

  /** Bodies read the same after a prefix is put in front of the text. */
  lemma {:induction false} BodyShift(pre: seq<string>, s: seq<string>, names: set<string>, i: nat)
    requires i <= |s|
    ensures BodyFrom(pre + s, |pre| + i, names) == BodyFrom(s, i, names)
    decreases |s| - i
  {
    if i < |s| {
      assert (pre + s)[|pre| + i] == s[i];
      BodyShift(pre, s, names, i + 1);
    }
  }

  /** Each recorded country's lines are its section in the lines read so far. */
  ghost predicate SectionsMatch(p: seq<string>, names: set<string>, bans: map<string, seq<string>>) {
    forall k :: k in bans ==> k in p && bans[k] == Section(p, names, k)
  }

  /** The order lists exactly the recorded countries, by first occurrence. */
  ghost predicate OrderMatches(p: seq<string>, bans: map<string, seq<string>>, order: seq<string>) {
    (forall k :: k in order <==> k in bans) && FirstSeenOrder(p, order)
  }

  /** The current country: none while no header has been read, else the header read last. */
  ghost predicate CursorAt(p: seq<string>, names: set<string>, bans: map<string, seq<string>>, cur: Option<string>) {
    && (cur.None? ==> HeaderFreeFrom(p, 0, names))
    && (cur.Some? ==>
          cur.value in bans && cur.value in p && HeaderFreeFrom(p, LastIndex(p, cur.value) + 1, names))
  }

  /** What the scan loop knows after reading the lines `p`. */
  ghost predicate ScanInvariant(p: seq<string>, names: set<string>, bans: map<string, seq<string>>,
                                order: seq<string>, cur: Option<string>)
  {
    && bans.Keys == HeadersIn(p, names)
    && SectionsMatch(p, names, bans)
    && OrderMatches(p, bans, order)
    && CursorAt(p, names, bans, cur)
  }

  lemma NoHeadersIn(p: seq<string>, names: set<string>)
    requires HeaderFreeFrom(p, 0, names)
    ensures HeadersIn(p, names) == {}
  {
  }

  lemma HeadersInAppend(p: seq<string>, x: string, names: set<string>)
    ensures HeadersIn(p + [x], names) == HeadersIn(p, names) + (if IsHeader(x, names) then {x} else {})
  {
  }

  /** Reading a line never changes where an already seen country was first seen. */
  lemma FirstSeenAppend(p: seq<string>, x: string, order: seq<string>)
    requires FirstSeenOrder(p, order)
    ensures FirstSeenOrder(p + [x], order)
    ensures forall i :: 0 <= i < |order| ==> FirstIndex(p + [x], order[i]) < |p|
  {
    forall i | 0 <= i < |order| ensures FirstIndex(p + [x], order[i]) == FirstIndex(p, order[i]) {
      FirstIndexAppend(p, x, order[i]);
    }
  }

  /** A country seen for the first time goes after all countries seen before. */
  lemma FirstSeenExtend(p: seq<string>, x: string, order: seq<string>)
    requires FirstSeenOrder(p, order) && x !in p
    ensures FirstSeenOrder(p + [x], order + [x])
  {
    FirstSeenAppend(p, x, order);
    assert FirstIndex(p + [x], x) == |p|;
  }

  /** A blank or header line leaves every other section as it was. */
  lemma SectionSkipsLine(p: seq<string>, x: string, names: set<string>, k: string)
    requires k in p && k != x && (x == "" || x in names)
    ensures k in p + [x] && Section(p + [x], names, k) == Section(p, names, k)
  {
    LastIndexAppend(p, x, k);
    BodyAppendStops(p, x, names, LastIndex(p, k) + 1, 0);
  }

  /** A section followed by a header at `j` no longer changes. */
  lemma SectionClosed(p: seq<string>, x: string, names: set<string>, k: string, j: nat)
    requires k in p && k != x && LastIndex(p, k) < j < |p| && IsHeader(p[j], names)
    ensures k in p + [x] && Section(p + [x], names, k) == Section(p, names, k)
  {
    LastIndexAppend(p, x, k);
    BodyAppendStops(p, x, names, LastIndex(p, k) + 1, j);
  }

  /** The current section keeps no header after it when a non-header line is read. */
  lemma TailStaysFree(p: seq<string>, x: string, names: set<string>, c: string)
    requires c in p && c != x && !IsHeader(x, names)
    requires HeaderFreeFrom(p, LastIndex(p, c) + 1, names)
    ensures c in p + [x] && HeaderFreeFrom(p + [x], LastIndex(p + [x], c) + 1, names)
  {
    LastIndexAppend(p, x, c);
  }

  /** A plain line read after the current header `c` joins `c`'s section. */
  lemma CurrentSectionGrows(p: seq<string>, x: string, names: set<string>, c: string)
    requires c in p && c != x && x != "" && !IsHeader(x, names)
    requires HeaderFreeFrom(p, LastIndex(p, c) + 1, names)
    ensures c in p + [x] && Section(p + [x], names, c) == Section(p, names, c) + [x]
  {
    LastIndexAppend(p, x, c);
    BodyAppendGrows(p, x, names, LastIndex(p, c) + 1);
  }

  /** A blank line changes no section. */
  lemma BlankSections(p: seq<string>, names: set<string>, bans: map<string, seq<string>>)
    requires SectionsMatch(p, names, bans) && bans.Keys == HeadersIn(p, names)
    ensures SectionsMatch(p + [""], names, bans)
  {
    forall k | k in bans ensures k in p + [""] && bans[k] == Section(p + [""], names, k) {
      SectionSkipsLine(p, "", names, k);
    }
  }

  /** A header line empties its own section and leaves the others as they were. */
  lemma HeaderSections(p: seq<string>, x: string, names: set<string>, bans: map<string, seq<string>>)
    requires SectionsMatch(p, names, bans) && IsHeader(x, names)
    ensures SectionsMatch(p + [x], names, bans[x := []])
  {
    forall k | k in bans && k != x ensures k in p + [x] && bans[k] == Section(p + [x], names, k) {
      SectionSkipsLine(p, x, names, k);
    }
    LastIndexAppend(p, x, x);
    assert Section(p + [x], names, x) == [];
  }

  /** A plain line grows the current section `c`; every other section is closed by `c`'s header. */
  lemma BodySections(p: seq<string>, x: string, names: set<string>, bans: map<string, seq<string>>, c: string)
    requires SectionsMatch(p, names, bans) && bans.Keys == HeadersIn(p, names)
    requires CursorAt(p, names, bans, Some(c))
    requires x != "" && x !in names
    ensures SectionsMatch(p + [x], names, bans[c := bans[c] + [x]])
  {
    var lc := LastIndex(p, c);
    forall k | k in bans && k != c ensures k in p + [x] && bans[k] == Section(p + [x], names, k) {
      var lk := LastIndex(p, k);
      if lk > lc {
        assert false;
      }
      SectionClosed(p, x, names, k, lc);
    }
    CurrentSectionGrows(p, x, names, c);
  }

  /** A header line seen before keeps the order; a new one is put at its end. */
  lemma HeaderOrder(p: seq<string>, x: string, names: set<string>, bans: map<string, seq<string>>, order: seq<string>)
    requires OrderMatches(p, bans, order) && bans.Keys == HeadersIn(p, names) && IsHeader(x, names)
    ensures x in bans ==> OrderMatches(p + [x], bans[x := []], order)
    ensures x !in bans ==> OrderMatches(p + [x], bans[x := []], order + [x])
  {
    if x in bans {
      FirstSeenAppend(p, x, order);
    } else {
      FirstSeenExtend(p, x, order);
    }
  }

  /** A blank line is skipped. */
  lemma {:induction false} BlankStep(p: seq<string>, names: set<string>, bans: map<string, seq<string>>,
                                     order: seq<string>, cur: Option<string>)
    requires ScanInvariant(p, names, bans, order, cur)
    ensures ScanInvariant(p + [""], names, bans, order, cur)
  {
    PlainLineKeysAndOrder(p, "", names, bans, order);
    BlankSections(p, names, bans);
    if cur.Some? {
      TailStaysFree(p, "", names, cur.value);
    }
  }

  /** A header line starts an empty section under its name; a new name goes to the end of the order. */
  lemma {:induction false} HeaderStep(p: seq<string>, x: string, names: set<string>,
                                      bans: map<string, seq<string>>, order: seq<string>, cur: Option<string>)
    requires ScanInvariant(p, names, bans, order, cur)
    requires IsHeader(x, names)
    ensures x in bans ==> ScanInvariant(p + [x], names, bans[x := []], order, Some(x))
    ensures x !in bans ==> ScanInvariant(p + [x], names, bans[x := []], order + [x], Some(x))
  {
    HeaderKeysAndCursor(p, x, names, bans, order);
    HeaderSections(p, x, names, bans);
    HeaderOrder(p, x, names, bans, order);
  }

  /** A header line is a key from now on and becomes the current country, with no header after it. */
  lemma HeaderKeysAndCursor(p: seq<string>, x: string, names: set<string>,
                            bans: map<string, seq<string>>, order: seq<string>)
    requires bans.Keys == HeadersIn(p, names) && IsHeader(x, names)
    ensures bans[x := []].Keys == HeadersIn(p + [x], names)
    ensures CursorAt(p + [x], names, bans[x := []], Some(x))
  {
    HeadersInAppend(p, x, names);
    LastIndexAppend(p, x, x);
  }

  /** A plain line read under a current country `c` is appended to `c`'s section. */
  lemma {:induction false} BodyStep(p: seq<string>, x: string, names: set<string>,
                                    bans: map<string, seq<string>>, order: seq<string>, c: string)
    requires ScanInvariant(p, names, bans, order, Some(c))
    requires x != "" && x !in names
    ensures ScanInvariant(p + [x], names, bans[c := bans[c] + [x]], order, Some(c))
  {
    BodyKeysAndOrder(p, x, names, bans, order, c);
    BodySections(p, x, names, bans, c);
    TailStaysFree(p, x, names, c);
  }

  /** A plain line read under `c` adds no country and moves no first occurrence. */
  lemma BodyKeysAndOrder(p: seq<string>, x: string, names: set<string>,
                         bans: map<string, seq<string>>, order: seq<string>, c: string)
    requires bans.Keys == HeadersIn(p, names) && OrderMatches(p, bans, order) && c in bans
    requires x != "" && x !in names
    ensures bans[c := bans[c] + [x]].Keys == HeadersIn(p + [x], names)
    ensures OrderMatches(p + [x], bans[c := bans[c] + [x]], order)
  {
    PlainLineKeysAndOrder(p, x, names, bans, order);
  }

  /** A blank or plain line adds no country and moves no first occurrence. */
  lemma PlainLineKeysAndOrder(p: seq<string>, x: string, names: set<string>,
                              bans: map<string, seq<string>>, order: seq<string>)
    requires bans.Keys == HeadersIn(p, names) && OrderMatches(p, bans, order)
    requires !IsHeader(x, names)
    ensures bans.Keys == HeadersIn(p + [x], names)
    ensures OrderMatches(p + [x], bans, order)
  {
    HeadersInAppend(p, x, names);
    FirstSeenAppend(p, x, order);
  }

  /** A plain line read before any header is dropped. */
  lemma {:induction false} StrayLineStep(p: seq<string>, x: string, names: set<string>,
                                         bans: map<string, seq<string>>, order: seq<string>)
    requires ScanInvariant(p, names, bans, order, None)
    requires x != "" && x !in names
    ensures ScanInvariant(p + [x], names, bans, order, None)
  {
    HeadersInAppend(p, x, names);
    FirstSeenAppend(p, x, order);
    NoHeadersIn(p, names);
  }

  /**
   * The loop of the scan: walk the window, skip blank lines, let a header
   * (re)open its section and append other lines to the current section.
   */
  method ScanSections(w: seq<string>, names: set<string>) returns (bans: map<string, seq<string>>, order: seq<string>)
    ensures bans.Keys == HeadersIn(w, names)
    ensures forall k :: k in bans ==> k in w && bans[k] == Section(w, names, k)
    ensures forall k :: k in order <==> k in bans
    ensures FirstSeenOrder(w, order)
  {
    bans, order := map[], [];
    var cur: Option<string> := None;
    for n := 0 to |w|
      invariant ScanInvariant(w[..n], names, bans, order, cur)
    {
      var line := w[n];
      assert w[..n + 1] == w[..n] + [line];
      if line == "" {
        BlankStep(w[..n], names, bans, order, cur);
      } else if line in names {
        HeaderStep(w[..n], line, names, bans, order, cur);
        if line !in bans {
          order := order + [line];
        }
        bans := bans[line := []];
        cur := Some(line);
      } else {
        if cur.Some? {
          BodyStep(w[..n], line, names, bans, order, cur.value);
          bans := bans[cur.value := bans[cur.value] + [line]];
        } else {
          StrayLineStep(w[..n], line, names, bans, order);
        }
      }
    }
    assert w[..|w|] == w;
  }

  /** The bans table a scan of window `w` yields. */
  ghost predicate IsBanTable(w: seq<string>, names: set<string>, t: BanTable) {
    && t.text.Keys == HeadersIn(w, names)
    && (forall k :: k in t.text ==> k in w && t.text[k] == Join(" ", Section(w, names, k)))
    && (forall k :: k in t.order <==> k in t.text)
    && FirstSeenOrder(w, t.order)
  }

  /** The dictionary comprehension over the scan's result: each section's lines joined by spaces. */
  method TabulateBans(w: seq<string>, names: set<string>) returns (t: BanTable)
    ensures IsBanTable(w, names, t)
  {
    var bans, order := ScanSections(w, names);
    var text := map k | k in bans :: Join(" ", bans[k]);
    assert text.Keys == bans.Keys;
    t := BanTable(order, text);
  }

  /** An empty window yields an empty table. */
  lemma EmptyWindowTable(names: set<string>, t: BanTable)
    requires IsBanTable([], names, t)
    ensures t == BanTable([], map[])
  {
    if t.order != [] {
      HeadIsMember(t.order);
      assert false;
    }
  }

  /** The window is exactly the lines between the first start marker and the first end marker after it. */
  lemma {:induction false} WindowBetweenMarkers(pre: seq<string>, w: seq<string>, post: seq<string>)
    requires StartMarker !in pre && EndMarker !in pre && EndMarker !in w
    ensures Window(pre + [StartMarker] + w + [EndMarker] + post) == Success(w)
  {
    var lines := pre + [StartMarker] + w + [EndMarker] + post;
    assert lines[|pre|] == StartMarker;
    assert lines[|pre| + 1 + |w|] == EndMarker;
    assert |StartMarker| != |EndMarker|;
    var s, e := FirstIndex(lines, StartMarker), FirstIndex(lines, EndMarker);
    if s < |pre| {
      assert false;
    }
    if e < |pre| + 1 + |w| {
      assert false;
    }
    assert lines[s + 1..e] == w;
  }

  /** A window holding one header and one plain line: a single section holding that line. */
  lemma OneSection(k: string, rule: string, names: set<string>)
    requires IsHeader(k, names) && rule != "" && rule !in names
    ensures HeadersIn([k, rule], names) == {k}
    ensures Section([k, rule], names, k) == [rule]
  {
    assert LastIndex([k, rule], k) == 0;
    assert BodyFrom([k, rule], 2, names) == [];
  }

  /** Non-header lines ahead of the first header change nothing. */
  lemma {:induction false} LeadingLinesIgnored(pre: seq<string>, w: seq<string>, names: set<string>)
    requires HeaderFreeFrom(pre, 0, names)
    ensures HeadersIn(pre + w, names) == HeadersIn(w, names)
    ensures forall k :: k in HeadersIn(w, names) ==> k in pre + w && Section(pre + w, names, k) == Section(w, names, k)
  {
    forall k | k in pre + w && IsHeader(k, names) ensures k in w {
      var i :| 0 <= i < |pre + w| && (pre + w)[i] == k;
      if i < |pre| {
        assert false;
      }
      assert w[i - |pre|] == k;
    }
    forall k | k in HeadersIn(w, names) ensures k in pre + w && Section(pre + w, names, k) == Section(w, names, k) {
      LastIndexPrepend(pre, w, k);
      BodyShift(pre, w, names, LastIndex(w, k) + 1);
    }
  }

  /** A header that occurs again starts over: its text is the body after its last occurrence. */
  lemma {:induction false} RepeatedHeaderResets(a: seq<string>, k: string, b: seq<string>, names: set<string>)
    requires k !in b
    ensures k in a + [k] + b && Section(a + [k] + b, names, k) == BodyFrom(b, 0, names)
  {
    var s := a + [k] + b;
    assert s[|a|] == k;
    var l := LastIndex(s, k);
    assert l == |a| by {
      if l > |a| {
        assert false;
      }
    }
    BodyShift(a + [k], b, names, 0);
  }
}
