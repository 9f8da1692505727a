/** Printing an event as iCalendar text and reading it back (packages/mail-service/src/dav-client.ts,
    lines 100 to 196; sections 3.1 and 3.3.11 of RFC 5545). */
module ICalendar {
  import opened Common
  import opened IcsText
  import opened IcsDate

  // ---- Reading: lines, blocks, properties ----

  /** `text.split(/\r?\n/)` */
  function SplitLines(s: string): seq<string>
    decreases |s|
  {
    var i := FirstIndex(s, LF);
    if i == |s| then [s]
    else [if i > 0 && s[i - 1] == CR then s[..i - 1] else s[..i]] + SplitLines(s[i + 1..])
  }

  type Record = map<string, string>

  const LISTED := {"ATTENDEE", "EMAIL", "TEL"}

  function ListKey(key: string): string {
    "_" + key + "S"
  }

  function Get(m: Record, key: string): string {
    if key in m then m[key] else ""
  }

  function Appended(existing: string, value: string): string {
    if existing == "" then value else existing + [LF] + value
  }

  /** Lines 120 to 128: the first value of a key wins; attendees, emails and phones also accumulate. */
  function Put(m: Record, key: string, value: string): Record {
    var first := if key in m then m else m[key := value];
    if key in LISTED then first[ListKey(key) := Appended(Get(first, ListKey(key)), value)] else first
  }

  function PutLine(m: Record, line: string): Record {
    var colon := FirstIndex(line, ':');
    if colon == |line| then m
    else
      var fullKey := line[..colon];
      Put(m, Upper(fullKey[..FirstIndex(fullKey, ';')]), line[colon + 1..])
  }

  /** The records of the blocks that the lines close, given the block that is open. */
  function Scan(lines: seq<string>, block: string, current: Option<Record>): seq<Record> {
    if lines == [] then []
    else if lines[0] == "BEGIN:" + block then Scan(lines[1..], block, Some(map[]))
    else if lines[0] == "END:" + block then
      (if current.Some? then [current.value] else []) + Scan(lines[1..], block, None)
    else
      Scan(lines[1..], block, if current.Some? then Some(PutLine(current.value, lines[0])) else None)
  }

  /** `extractVBlocks`, lines 100 to 133 */
  method ExtractVBlocks(raw: string, block: string) returns (results: seq<Record>)
    ensures results == Scan(SplitLines(UnfoldIcs(raw)), block, None)
  {
    var lines := SplitLines(UnfoldIcs(raw));
    results := [];
    var current: Option<Record> := None;
    for i := 0 to |lines|
      invariant results + Scan(lines[i..], block, current) == Scan(lines, block, None)
    {
      var line := lines[i];
      assert lines[i..][1..] == lines[i + 1..];
      if line == "BEGIN:" + block {
        current := Some(map[]);
      } else if line == "END:" + block {
        if current.Some? {
          assert results + ([current.value] + Scan(lines[i + 1..], block, None)) == results + [current.value] + Scan(lines[i + 1..], block, None);
          results := results + [current.value];
          current := None;
        }
      } else if current.Some? {
        var colon := FirstIndex(line, ':');
        if colon == |line| { continue; }
        var fullKey, value := line[..colon], line[colon + 1..];
        var key := Upper(fullKey[..FirstIndex(fullKey, ';')]);
        var m := current.value;
        if key !in m { m := m[key := value]; }
        if key in LISTED {
          var existing := Get(m, ListKey(key));
          m := m[ListKey(key) := if existing == "" then value else existing + [LF] + value];
        }
        current := Some(m);
      }
    }
  }

  /** What `/mailto:([^\s;]+)/i` captures in an attendee value, or the value itself. */
  function Mailto(value: string): string {
    MailtoFrom(value, value)
  }

  function MailtoFrom(rest: string, value: string): string {
    if |rest| >= 8 && Upper(rest[..7]) == "MAILTO:" && !StopsAddress(rest[7]) then Address(rest[7..])
    else if rest == [] then value
    else MailtoFrom(rest[1..], value)
  }

  predicate StopsAddress(c: char) {
    IsSpace(c) || c == ';'
  }

  function Address(s: string): (r: string)
    ensures |r| <= |s|
    ensures r == s <==> forall c | c in s :: !StopsAddress(c)
  {
    if s == [] || StopsAddress(s[0]) then [] else [s[0]] + Address(s[1..])
  }

  /** The first `mailto:` in any case counts, up to white space or a semicolon; without one the value stands. */
  lemma {:induction false} MailtoIs(front: string, scheme: string, address: string, tail: string, value: string)
    requires ':' !in front && Upper(scheme) == "MAILTO:" && address != "" && (forall c | c in address :: !StopsAddress(c))
    requires tail == "" || StopsAddress(tail[0])
    ensures MailtoFrom(front + (scheme + (address + tail)), value) == address
  {
    var s := front + (scheme + (address + tail));
    assert |scheme| == 7 && scheme[6] == ':' by { SchemeEnds(scheme); }
    if front == "" {
      assert s[..7] == scheme && s[7..] == address + tail && s[7] == address[0];
      AddressIs(address, tail);
    } else {
      assert s[0] == front[0] && s[1..] == front[1..] + (scheme + (address + tail));
      NoSchemeAt(front, scheme, s);
      MailtoIs(front[1..], scheme, address, tail, value);
    }
  }

  lemma SchemeEnds(scheme: string)
    requires Upper(scheme) == "MAILTO:"
    ensures |scheme| == 7 && scheme[6] == ':' && forall i | 0 <= i < 6 :: scheme[i] != ':'
  {
    var upper := "MAILTO:";
    assert |upper| == 7 && upper[6] == ':' && upper[0] == 'M' && upper[1] == 'A' && upper[2] == 'I' && upper[3] == 'L' && upper[4] == 'T'
      && upper[5] == 'O';
    assert forall i | 0 <= i < 7 :: Upper(scheme)[i] == UpperChar(scheme[i]);
    assert UpperChar(scheme[6]) == ':';
    forall i | 0 <= i < 6 ensures scheme[i] != ':' {
      assert UpperChar(scheme[i]) == upper[i] && upper[i] != ':';
    }
  }

  lemma NoSchemeAt(front: string, scheme: string, s: string)
    requires front != "" && ':' !in front && |scheme| == 7 && Upper(scheme) == "MAILTO:" && front + scheme <= s
    ensures Upper(s[..7]) != "MAILTO:"
  {
    SchemeEnds(scheme);
    if 6 < |front| {
      assert s[6] == front[6] && front[6] in front;
    } else {
      assert s[6] == scheme[6 - |front|];
    }
    ColonBehind(s[..7]);
  }

  lemma ColonBehind(s: string)
    requires |s| == 7
    ensures Upper(s) == "MAILTO:" ==> s[6] == ':'
  {
    if Upper(s) == "MAILTO:" { SchemeEnds(s); }
  }

  lemma {:induction false} AddressIs(address: string, tail: string)
    requires (forall c | c in address :: !StopsAddress(c)) && (tail == "" || StopsAddress(tail[0]))
    ensures Address(address + tail) == address
  {
    if address == "" {
      assert address + tail == tail;
    } else {
      assert address[0] in address && (address + tail)[0] == address[0] && (address + tail)[1..] == address[1..] + tail;
      assert forall c | c in address[1..] :: c in address;
      AddressIs(address[1..], tail);
    }
  }

  lemma {:induction false} NoMailto(rest: string, value: string)
    requires ':' !in rest
    ensures MailtoFrom(rest, value) == value
  {
    if rest != "" {
      if |rest| >= 8 {
        ColonBehind(rest[..7]);
        assert rest[6] in rest;
      }
      NoMailto(rest[1..], value);
    }
  }

  function Mailtos(values: seq<string>): seq<string> {
    if values == [] then []
    else (if values[0] == "" then [] else [Mailto(values[0])]) + Mailtos(values[1..])
  }

  datatype Event = Event(uid: string, title: string, start: string, end: string, allDay: bool, description: string,
                         location: string, status: string, attendees: seq<string>, rrule: Option<string>)

  function EventOf(p: Record): Event {
    var dtStart := if Get(p, "DTSTART") != "" then Some(ParseIcsDtValue(p["DTSTART"])) else None;
    var dtEnd := if Get(p, "DTEND") != "" then Some(ParseIcsDtValue(p["DTEND"])) else None;
    var attendees := if "_ATTENDEES" in p then p["_ATTENDEES"] else Get(p, "ATTENDEE");
    Event(
      Get(p, "UID"),
      UnescapeIcs(Get(p, "SUMMARY")),
      if dtStart.Some? then dtStart.value.iso else "",
      if dtEnd.Some? then dtEnd.value.iso else if dtStart.Some? then dtStart.value.iso else "",
      dtStart.Some? && dtStart.value.allDay,
      UnescapeIcs(Get(p, "DESCRIPTION")),
      UnescapeIcs(Get(p, "LOCATION")),
      if "STATUS" in p then p["STATUS"] else "CONFIRMED",
      Mailtos(SplitOn(attendees, LF)),
      if "RRULE" in p then Some(p["RRULE"]) else None)
  }

  /** `parseIcsEvent`, lines 135 to 167, without the url and etag it is handed */
  function ParseIcsEvent(data: string): Option<Event> {
    var vevents := Scan(SplitLines(UnfoldIcs(data)), "VEVENT", None);
    if vevents == [] then None else Some(EventOf(vevents[0]))
  }

  // ---- Printing ----

  /** The event to print, with the uid chosen and the current time read. An absent text is "". */
  datatype EventInput = EventInput(uid: string, now: DateTime, title: string, start: DateTime, end: DateTime, allDay: bool,
                                   description: string, location: string, status: string, attendees: seq<string>, rrule: string)

  /** One property line, before folding: key, parameters, value. */
  datatype Prop = Prop(key: string, params: string, value: string, folded: bool)

  function Text(p: Prop): string {
    p.key + p.params + ":" + p.value
  }

  function Render(p: Prop): string {
    if p.folded then Fold(Text(p)) else Text(p)
  }

  function Attendees(attendees: seq<string>): seq<Prop> {
    seq(|attendees|, i requires 0 <= i < |attendees| => AttendeeProp(attendees[i]))
  }

  function Optionally(present: bool, p: Prop): seq<Prop> {
    if present then [p] else []
  }

  /** The properties of the VEVENT block in the order they are printed. */
  function Props(ev: EventInput): seq<Prop> {
    FiveProps(ev) + OptionalProps(ev) + Attendees(ev.attendees)
  }

  const HEADER: seq<Prop> :=
    [Prop("BEGIN", "", "VCALENDAR", false), Prop("VERSION", "", "2.0", false),
     Prop("PRODID", "", "-//StarlingAI//StarlingAI//EN", false), Prop("BEGIN", "", "VEVENT", false)]
  const FOOTER: seq<Prop> := [Prop("END", "", "VEVENT", false), Prop("END", "", "VCALENDAR", false)]

  function Rendered(ps: seq<Prop>): seq<string> {
    seq(|ps|, i requires 0 <= i < |ps| => Render(ps[i]))
  }

  function Texts(ps: seq<Prop>): seq<string> {
    seq(|ps|, i requires 0 <= i < |ps| => Text(ps[i]))
  }

  /** `lines.join("\r\n") + "\r\n"` for a non-empty list */
  function Document(lines: seq<string>): string {
    if lines == [] then [] else lines[0] + CRLF + Document(lines[1..])
  }

  function ICalString(ev: EventInput): string {
    Document(Rendered(HEADER + Props(ev) + FOOTER))
  }

  method Push(lines: seq<string>, ghost done: seq<Prop>, p: Prop) returns (more: seq<string>)
    requires lines == Rendered(done)
    ensures more == Rendered(done + [p])
  {
    var line := Text(p);
    if p.folded {
      line := FoldIcsLine(line);
    }
    more := lines + [line];
    assert Rendered(done + [p]) == Rendered(done) + [line];
  }

  function FiveProps(ev: EventInput): seq<Prop> {
    var asDate := if ev.allDay then ";VALUE=DATE" else "";
    [Prop("UID", "", ev.uid, false),
     Prop("DTSTAMP", "", FormatIcsDate(ev.now, false), false),
     Prop("DTSTART", asDate, FormatIcsDate(ev.start, ev.allDay), false),
     Prop("DTEND", asDate, FormatIcsDate(ev.end, ev.allDay), false),
     Prop("SUMMARY", "", EscapeIcs(ev.title), true)]
  }

  function OptionalProps(ev: EventInput): seq<Prop> {
    Optionally(ev.description != "", Prop("DESCRIPTION", "", EscapeIcs(ev.description), true))
    + Optionally(ev.location != "", Prop("LOCATION", "", EscapeIcs(ev.location), true))
    + Optionally(ev.status != "", Prop("STATUS", "", Upper(ev.status), false))
    + Optionally(ev.rrule != "", Prop("RRULE", "", ev.rrule, false))
  }

  method FiveLines(ev: EventInput) returns (lines: seq<string>)
    ensures lines == Rendered(HEADER + FiveProps(ev))
  {
    var asDate := if ev.allDay then ";VALUE=DATE" else "";
    var uid := Prop("UID", "", ev.uid, false);
    var stamp := Prop("DTSTAMP", "", FormatIcsDate(ev.now, false), false);
    var dtStart := Prop("DTSTART", asDate, FormatIcsDate(ev.start, ev.allDay), false);
    var dtEnd := Prop("DTEND", asDate, FormatIcsDate(ev.end, ev.allDay), false);
    var summary := Prop("SUMMARY", "", EscapeIcs(ev.title), true);
    lines := Push(Rendered(HEADER), HEADER, uid);
    lines := Push(lines, HEADER + [uid], stamp);
    lines := Push(lines, HEADER + [uid] + [stamp], dtStart);
    lines := Push(lines, HEADER + [uid] + [stamp] + [dtStart], dtEnd);
    lines := Push(lines, HEADER + [uid] + [stamp] + [dtStart] + [dtEnd], summary);
    assert HEADER + [uid] + [stamp] + [dtStart] + [dtEnd] + [summary] == HEADER + FiveProps(ev);
  }

  method PushIf(present: bool, lines: seq<string>, ghost done: seq<Prop>, p: Prop) returns (more: seq<string>)
    requires lines == Rendered(done)
    ensures more == Rendered(done + Optionally(present, p))
  {
    more := lines;
    if present {
      more := Push(lines, done, p);
    } else {
      assert done + [] == done;
    }
  }

  method PushOptionals(ev: EventInput, before: seq<string>, ghost five: seq<Prop>) returns (lines: seq<string>)
    requires before == Rendered(five)
    ensures lines == Rendered(five + OptionalProps(ev))
  {
    var description := Prop("DESCRIPTION", "", EscapeIcs(ev.description), true);
    var location := Prop("LOCATION", "", EscapeIcs(ev.location), true);
    var status := Prop("STATUS", "", Upper(ev.status), false);
    var rrule := Prop("RRULE", "", ev.rrule, false);
    ghost var done := five;
    lines := PushIf(ev.description != "", before, done, description);
    done := done + Optionally(ev.description != "", description);
    lines := PushIf(ev.location != "", lines, done, location);
    done := done + Optionally(ev.location != "", location);
    lines := PushIf(ev.status != "", lines, done, status);
    done := done + Optionally(ev.status != "", status);
    lines := PushIf(ev.rrule != "", lines, done, rrule);
    done := done + Optionally(ev.rrule != "", rrule);
    FourMore(five, Optionally(ev.description != "", description), Optionally(ev.location != "", location),
             Optionally(ev.status != "", status), Optionally(ev.rrule != "", rrule));
  }

  lemma FourMore<T>(five: seq<T>, a: seq<T>, b: seq<T>, c: seq<T>, d: seq<T>)
    ensures five + a + b + c + d == five + (a + b + c + d)
  {
  }

  lemma Assemble(header: seq<Prop>, five: seq<Prop>, optional: seq<Prop>, attendees: seq<Prop>, footer: seq<Prop>)
    ensures Rendered(header + five + optional + attendees) + Rendered(footer) == Rendered(header + (five + optional + attendees) + footer)
  {
    assert header + five + optional + attendees == header + (five + optional + attendees);
    RenderedIsConcat(header + (five + optional + attendees), footer);
  }

  function AttendeeProp(attendee: string): Prop {
    Prop("ATTENDEE", ";RSVP=TRUE", "mailto:" + attendee, true)
  }

  method PushAttendees(attendees: seq<string>, before: seq<string>, ghost done: seq<Prop>) returns (lines: seq<string>)
    requires before == Rendered(done)
    ensures lines == Rendered(done + Attendees(attendees))
  {
    lines := before;
    for i := 0 to |attendees|
      invariant lines == Rendered(done + Attendees(attendees[..i]))
    {
      lines := Push(lines, done + Attendees(attendees[..i]), AttendeeProp(attendees[i]));
      assert done + Attendees(attendees[..i]) + [AttendeeProp(attendees[i])] == done + Attendees(attendees[..i + 1]);
    }
    assert attendees[..|attendees|] == attendees;
  }

  /** `buildICalString`, lines 169 to 196 */
  method BuildICalString(ev: EventInput) returns (text: string)
    ensures text == ICalString(ev)
  {
    var lines := FiveLines(ev);
    lines := PushOptionals(ev, lines, HEADER + FiveProps(ev));
    lines := PushAttendees(ev.attendees, lines, HEADER + FiveProps(ev) + OptionalProps(ev));
    Assemble(HEADER, FiveProps(ev), OptionalProps(ev), Attendees(ev.attendees), FOOTER);
    text := Document(lines + Rendered(FOOTER));
  }

  // ---- From the text back to its lines ----

  predicate IsKey(key: string) {
    key != [] && forall i | 0 <= i < |key| :: 'A' <= key[i] <= 'Z'
  }

  /** A property whose line stays one line and whose key can be read back. */
  predicate OneLine(p: Prop) {
    IsKey(p.key) && LF !in p.params && LF !in p.value && ':' !in p.params && (p.params == "" || p.params[0] == ';')
  }

  predicate OneLines(ps: seq<Prop>) {
    forall p | p in ps :: OneLine(p)
  }

  lemma TextShape(p: Prop)
    requires OneLine(p)
    ensures LF !in Text(p) && Text(p) != [] && Text(p)[0] == p.key[0]
    ensures Render(p) != [] && Render(p)[0] == p.key[0]
  {
    if |Text(p)| > FOLD_WIDTH {
      assert Fold(Text(p))[0] == Text(p)[..FOLD_WIDTH][0];
    }
  }

  lemma CharKeepsCrlf(c: char, rest: string)
    requires c == CR ==> |rest| < 2 || rest[0] != LF || !IsBlank(rest[1])
    ensures DropCrlfBlank([c] + rest) == [c] + DropCrlfBlank(rest)
  {
    assert ([c] + rest)[1..] == rest;
  }

  lemma CharKeepsLf(c: char, rest: string)
    requires c == LF ==> rest == [] || !IsBlank(rest[0])
    ensures DropLfBlank([c] + rest) == [c] + DropLfBlank(rest)
  {
    assert ([c] + rest)[1..] == rest;
  }

  lemma TwoFirst(c: char, d: char, rest: string)
    ensures [c, d] + rest == [c] + ([d] + rest)
  {
  }

  lemma CrlfKeeps(rest: string)
    requires rest == [] || !IsBlank(rest[0])
    ensures DropCrlfBlank(CRLF + rest) == CRLF + DropCrlfBlank(rest)
    ensures DropLfBlank(CRLF + rest) == CRLF + DropLfBlank(rest)
  {
    assert CRLF == [CR, LF];
    KeepsCrlf(rest);
    KeepsLf(rest);
  }

  lemma KeepsCrlf(rest: string)
    requires rest == [] || !IsBlank(rest[0])
    ensures DropCrlfBlank([CR, LF] + rest) == [CR, LF] + DropCrlfBlank(rest)
  {
    TwoFirst(CR, LF, rest);
    TwoFirst(CR, LF, DropCrlfBlank(rest));
    CharKeepsCrlf(CR, [LF] + rest);
    CharKeepsCrlf(LF, rest);
  }

  lemma KeepsLf(rest: string)
    requires rest == [] || !IsBlank(rest[0])
    ensures DropLfBlank([CR, LF] + rest) == [CR, LF] + DropLfBlank(rest)
  {
    TwoFirst(CR, LF, rest);
    TwoFirst(CR, LF, DropLfBlank(rest));
    CharKeepsLf(CR, [LF] + rest);
    CharKeepsLf(LF, rest);
  }

  lemma RenderPasses(p: Prop, rest: string)
    requires OneLine(p) && (rest == [] || rest[0] != LF)
    ensures DropCrlfBlank(Render(p) + rest) == Text(p) + DropCrlfBlank(rest)
  {
    TextShape(p);
    if p.folded { FoldPasses(Text(p), rest); } else { CrlfPasses(Text(p), rest); }
  }

  lemma UnfoldLine(p: Prop, rest: string, plain: string)
    requires OneLine(p) && (rest == [] || !IsBlank(rest[0])) && DropCrlfBlank(rest) == plain
    ensures DropCrlfBlank(Render(p) + CRLF + rest) == Text(p) + CRLF + plain
  {
    assert Render(p) + CRLF + rest == Render(p) + (CRLF + rest);
    RenderPasses(p, CRLF + rest);
    CrlfKeeps(rest);
    assert Text(p) + CRLF + plain == Text(p) + (CRLF + plain);
  }

  lemma KeepLine(p: Prop, plain: string)
    requires OneLine(p) && (plain == [] || !IsBlank(plain[0])) && DropLfBlank(plain) == plain
    ensures DropLfBlank(Text(p) + CRLF + plain) == Text(p) + CRLF + plain
  {
    TextShape(p);
    assert Text(p) + CRLF + plain == Text(p) + (CRLF + plain);
    LfPasses(Text(p), CRLF + plain);
    CrlfKeeps(plain);
  }

  lemma DocumentStart(ps: seq<Prop>)
    requires OneLines(ps) && ps != []
    ensures Document(Rendered(ps)) != [] && !IsBlank(Document(Rendered(ps))[0])
    ensures Document(Texts(ps)) != [] && !IsBlank(Document(Texts(ps))[0])
  {
    TextShape(ps[0]);
    assert Document(Rendered(ps))[0] == Render(ps[0])[0];
    assert Document(Texts(ps))[0] == Text(ps[0])[0];
  }

  /** Unfolding a printed document gives its lines unfolded. */
  lemma {:induction false} UnfoldDocument(ps: seq<Prop>)
    requires OneLines(ps)
    ensures DropCrlfBlank(Document(Rendered(ps))) == Document(Texts(ps))
    ensures DropLfBlank(Document(Texts(ps))) == Document(Texts(ps))
  {
    if ps != [] {
      var p, more := ps[0], ps[1..];
      UnfoldDocument(more);
      assert Rendered(ps)[1..] == Rendered(more) && Texts(ps)[1..] == Texts(more);
      if more != [] {
        DocumentStart(more);
      }
      UnfoldLine(p, Document(Rendered(more)), Document(Texts(more)));
      KeepLine(p, Document(Texts(more)));
    }
  }

  lemma {:induction false} FirstIndexIs(s: string, c: char, i: nat)
    requires i <= |s| && c !in s[..i] && (i < |s| ==> s[i] == c)
    ensures FirstIndex(s, c) == i
  {
    if i > 0 {
      assert s[..i][0] == s[0];
      assert s[1..][..i - 1] == s[..i][1..];
      FirstIndexIs(s[1..], c, i - 1);
    }
  }

  lemma SplitOne(line: string, rest: string)
    requires LF !in line
    ensures SplitLines(line + CRLF + rest) == [line] + SplitLines(rest)
  {
    var s := line + CRLF + rest;
    assert s[..|line| + 1] == line + [CR];
    FirstIndexIs(s, LF, |line| + 1);
    assert s[..|line|] == line && s[|line| + 2..] == rest;
  }

  lemma TextsFirst(ps: seq<Prop>)
    requires ps != []
    ensures Texts(ps) == [Text(ps[0])] + Texts(ps[1..])
  {
  }

  lemma DocumentCons(first: string, rest: seq<string>)
    ensures Document([first] + rest) == first + CRLF + Document(rest)
  {
    assert ([first] + rest)[1..] == rest;
  }

  lemma {:induction false} SplitDocument(ps: seq<Prop>)
    requires OneLines(ps)
    ensures SplitLines(Document(Texts(ps))) == Texts(ps) + [""]
  {
    if ps == [] {
    } else {
      TextShape(ps[0]);
      SplitDocument(ps[1..]);
      var first, rest := Text(ps[0]), Texts(ps[1..]);
      TextsFirst(ps);
      DocumentCons(first, rest);
      SplitOne(first, Document(rest));
      Associates([first], rest, [""]);
    }
  }

  // ---- Scanning the block ----

  /** Reading a printed line puts its key, in upper case already, and its value. */
  lemma PutText(m: Record, p: Prop)
    requires OneLine(p)
    ensures PutLine(m, Text(p)) == Put(m, p.key, p.value)
  {
    var line, fullKey := Text(p), p.key + p.params;
    assert line[..|fullKey|] == fullKey && line[|fullKey| + 1..] == p.value;
    assert ':' !in fullKey;
    FirstIndexIs(line, ':', |fullKey|);
    assert fullKey[..|p.key|] == p.key;
    assert ';' !in p.key;
    FirstIndexIs(fullKey, ';', |p.key|);
    assert Upper(p.key) == p.key;
  }

  function PutAll(m: Record, ps: seq<Prop>): Record
    decreases ps
  {
    if ps == [] then m else PutAll(Put(m, ps[0].key, ps[0].value), ps[1..])
  }

  predicate Inner(p: Prop) {
    OneLine(p) && p.key[0] != 'B' && p.key[0] != 'E'
  }

  lemma TextsCons(ps: seq<Prop>, rest: seq<string>)
    requires ps != []
    ensures Texts(ps) + rest == [Text(ps[0])] + (Texts(ps[1..]) + rest)
  {
  }

  /** A line that opens or closes no block. */
  lemma NoFrameLine(line: string)
    requires line != "" && line[0] != 'B' && line[0] != 'E'
    ensures line != "BEGIN:" + "VEVENT" && line != "END:" + "VEVENT"
  {
    assert ("BEGIN:" + "VEVENT")[0] == 'B' && ("END:" + "VEVENT")[0] == 'E';
  }

  lemma {:induction false} ScanProps(m: Record, ps: seq<Prop>, rest: seq<string>)
    requires forall p | p in ps :: Inner(p)
    ensures Scan(Texts(ps) + rest, "VEVENT", Some(m)) == Scan(rest, "VEVENT", Some(PutAll(m, ps)))
    decreases ps
  {
    if ps == [] {
      assert Texts(ps) + rest == rest;
    } else {
      assert ps[0] in ps;
      TextShape(ps[0]);
      PutText(m, ps[0]);
      TextsCons(ps, rest);
      NoFrameLine(Text(ps[0]));
      ScanStep(Text(ps[0]), Texts(ps[1..]) + rest, "VEVENT", Some(m));
      ScanProps(Put(m, ps[0].key, ps[0].value), ps[1..], rest);
    }
  }

  // ---- What the record holds ----

  function FirstValue(ps: seq<Prop>, key: string): Option<string> {
    if ps == [] then None else if ps[0].key == key then Some(ps[0].value) else FirstValue(ps[1..], key)
  }

  lemma {:induction false} FirstValueConcat(a: seq<Prop>, b: seq<Prop>, key: string)
    ensures FirstValue(a + b, key) == if FirstValue(a, key).Some? then FirstValue(a, key) else FirstValue(b, key)
  {
    if a == [] {
      assert a + b == b;
    } else {
      assert (a + b)[1..] == a[1..] + b;
      FirstValueConcat(a[1..], b, key);
    }
  }

  /** Under a plain key stands the first value printed for it. */
  lemma {:induction false} FirstWins(m: Record, ps: seq<Prop>, key: string)
    requires key != [] && key[0] != '_'
    ensures var r := PutAll(m, ps);
      && (key in r <==> key in m || FirstValue(ps, key).Some?)
      && (key in m ==> r[key] == m[key])
      && (key !in m && FirstValue(ps, key).Some? ==> r[key] == FirstValue(ps, key).value)
    decreases ps
  {
    if ps != [] {
      var k := ps[0].key;
      assert ListKey(k)[0] == '_';
      FirstWins(Put(m, k, ps[0].value), ps[1..], key);
    }
  }

  function Joined(existing: string, values: seq<string>): string
    decreases values
  {
    if values == [] then existing else Joined(Appended(existing, values[0]), values[1..])
  }

  function AttendeeValues(ps: seq<Prop>): seq<string> {
    if ps == [] then [] else (if ps[0].key == "ATTENDEE" then [ps[0].value] else []) + AttendeeValues(ps[1..])
  }

  lemma {:induction false} AttendeeValuesConcat(a: seq<Prop>, b: seq<Prop>)
    ensures AttendeeValues(a + b) == AttendeeValues(a) + AttendeeValues(b)
  {
    if a == [] {
      assert a + b == b;
    } else {
      assert (a + b)[1..] == a[1..] + b;
      AttendeeValuesConcat(a[1..], b);
    }
  }

  lemma JoinedCons(existing: string, value: string, values: seq<string>)
    ensures Joined(existing, [value] + values) == Joined(Appended(existing, value), values)
  {
    assert ([value] + values)[1..] == values;
  }

  lemma PutKeepsAttendees(m: Record, key: string, value: string)
    requires IsKey(key)
    ensures var r := Put(m, key, value);
      if key == "ATTENDEE" then "_ATTENDEES" in r && r["_ATTENDEES"] == Appended(Get(m, "_ATTENDEES"), value)
      else ("_ATTENDEES" in r <==> "_ATTENDEES" in m) && Get(r, "_ATTENDEES") == Get(m, "_ATTENDEES")
  {
    assert key[0] != '_';
    assert key != "_ATTENDEES";
    assert ListKey("ATTENDEE") == "_ATTENDEES";
    if key != "ATTENDEE" {
      assert ListKey(key)[1..|ListKey(key)| - 1] == key;
      assert "_ATTENDEES"[1..9] == "ATTENDEE";
    }
  }

  lemma {:induction false} AttendeesAccumulate(m: Record, ps: seq<Prop>)
    requires forall p | p in ps :: IsKey(p.key)
    ensures var r := PutAll(m, ps);
      && ("_ATTENDEES" in r <==> "_ATTENDEES" in m || AttendeeValues(ps) != [])
      && Get(r, "_ATTENDEES") == Joined(Get(m, "_ATTENDEES"), AttendeeValues(ps))
    decreases ps
  {
    if ps != [] {
      var k := ps[0].key;
      PutKeepsAttendees(m, k, ps[0].value);
      if k == "ATTENDEE" {
        assert AttendeeValues(ps) == [ps[0].value] + AttendeeValues(ps[1..]);
        JoinedCons(Get(m, "_ATTENDEES"), ps[0].value, AttendeeValues(ps[1..]));
      } else {
        assert AttendeeValues(ps) == AttendeeValues(ps[1..]);
      }
      AttendeesAccumulate(Put(m, k, ps[0].value), ps[1..]);
    }
  }

  lemma SplitOneOnLf(line: string, rest: string)
    requires LF !in line
    ensures SplitOn(line + [LF] + rest, LF) == [line] + SplitOn(rest, LF)
    ensures SplitOn(line, LF) == [line]
  {
    var s := line + [LF] + rest;
    assert s[..|line|] == line && s[|line| + 1..] == rest;
    FirstIndexIs(s, LF, |line|);
    FirstIndexIs(line, LF, |line|);
  }

  lemma {:induction false} JoinedAfter(first: string, second: string, values: seq<string>)
    requires second != ""
    ensures Joined(first + [LF] + second, values) == first + [LF] + Joined(second, values)
    decreases values
  {
    if values != [] {
      assert first + [LF] + second + [LF] + values[0] == first + [LF] + (second + [LF] + values[0]);
      JoinedAfter(first, second + [LF] + values[0], values[1..]);
    }
  }

  /** Splitting the accumulated attendees gives the values back. */
  lemma {:induction false} SplitJoined(values: seq<string>)
    requires values != [] && forall v | v in values :: v != "" && LF !in v
    ensures SplitOn(Joined("", values), LF) == values
  {
    assert values[0] in values;
    if |values| == 1 {
      SplitOneOnLf(values[0], "");
      assert Joined(values[0], []) == values[0];
      assert values == [values[0]];
    } else {
      assert values[1] in values;
      assert forall v | v in values[1..] :: v in values;
      SplitJoined(values[1..]);
      JoinedAfter(values[0], values[1], values[2..]);
      assert values[1..][1..] == values[2..];
      assert Joined("", values[1..]) == Joined(values[1], values[2..]);
      SplitOneOnLf(values[0], Joined("", values[1..]));
      assert values == [values[0]] + values[1..];
    }
  }

  // ---- The round trip ----

  predicate ValidDates(ev: EventInput) {
    ev.now.Valid() && ev.start.Valid() && ev.end.Valid()
  }

  /** What the printer takes verbatim holds no line feed. */
  predicate OneLined(ev: EventInput) {
    && LF !in ev.uid && LF !in ev.status && LF !in ev.rrule
    && (forall a | a in ev.attendees :: LF !in a)
  }

  predicate Printable(ev: EventInput) {
    OneLined(ev) && ValidDates(ev)
  }

  lemma UpperHasNoLf(s: string)
    requires LF !in s
    ensures LF !in Upper(s)
  {
  }

  lemma {:induction false} NoLfInDigits(s: string)
    requires AllDigits(s)
    ensures LF !in s
  {
    forall i | 0 <= i < |s| ensures s[i] != LF { assert IsDigit(s[i]); }
  }

  lemma PrintedDateHasNoLf(d: DateTime, allDay: bool)
    ensures LF !in FormatIcsDate(d, allDay)
  {
    PadLength(d.year);
    PadLength(d.month);
    PadLength(d.day);
    PadLength(d.hour);
    PadLength(d.minute);
    PadLength(d.second);
    NoLfInDigits(Pad(d.year, 4));
    NoLfInDigits(Pad(d.month, 2));
    NoLfInDigits(Pad(d.day, 2));
    NoLfInDigits(Pad(d.hour, 2));
    NoLfInDigits(Pad(d.minute, 2));
    NoLfInDigits(Pad(d.second, 2));
  }

  predicate Inners(ps: seq<Prop>) {
    forall p | p in ps :: Inner(p)
  }

  lemma InnerProp(key: string, params: string, value: string, folded: bool)
    requires IsKey(key) && LF !in value && LF !in params && ':' !in params && (params == "" || params[0] == ';')
    ensures OneLine(Prop(key, params, value, folded))
    ensures key[0] != 'B' && key[0] != 'E' ==> Inner(Prop(key, params, value, folded))
  {
  }

  lemma KeysAreKeys()
    ensures IsKey("UID") && IsKey("DTSTAMP") && IsKey("DTSTART") && IsKey("DTEND") && IsKey("SUMMARY")
  {
  }

  lemma FrameKeys()
    ensures IsKey("BEGIN") && IsKey("VERSION") && IsKey("PRODID") && IsKey("END")
  {
  }

  lemma FiveAreInner(ev: EventInput)
    requires Printable(ev)
    ensures Inners(FiveProps(ev))
  {
    EscapedHasNoLf(ev.title);
    PrintedDateHasNoLf(ev.now, false);
    PrintedDateHasNoLf(ev.start, ev.allDay);
    PrintedDateHasNoLf(ev.end, ev.allDay);
    FiveTexts(ev.uid, FormatIcsDate(ev.now, false), if ev.allDay then ";VALUE=DATE" else "", FormatIcsDate(ev.start, ev.allDay),
              FormatIcsDate(ev.end, ev.allDay), EscapeIcs(ev.title));
  }

  lemma FiveTexts(uid: string, stamp: string, asDate: string, from: string, upto: string, title: string)
    requires LF !in uid && LF !in stamp && LF !in from && LF !in upto && LF !in title && asDate in {";VALUE=DATE", ""}
    ensures Inners([Prop("UID", "", uid, false), Prop("DTSTAMP", "", stamp, false), Prop("DTSTART", asDate, from, false),
                    Prop("DTEND", asDate, upto, false), Prop("SUMMARY", "", title, true)])
  {
    KeysAreKeys();
    InnerProp("UID", "", uid, false);
    InnerProp("DTSTAMP", "", stamp, false);
    InnerProp("DTSTART", asDate, from, false);
    InnerProp("DTEND", asDate, upto, false);
    InnerProp("SUMMARY", "", title, true);
    InnersOfFive([Prop("UID", "", uid, false), Prop("DTSTAMP", "", stamp, false), Prop("DTSTART", asDate, from, false),
                  Prop("DTEND", asDate, upto, false), Prop("SUMMARY", "", title, true)]);
  }

  lemma InnersOfFive(five: seq<Prop>)
    requires |five| == 5 && Inner(five[0]) && Inner(five[1]) && Inner(five[2]) && Inner(five[3]) && Inner(five[4])
    ensures Inners(five)
  {
    forall p | p in five ensures Inner(p) {
      var i :| 0 <= i < 5 && five[i] == p;
      assert i == 0 || i == 1 || i == 2 || i == 3 || i == 4;
    }
  }

  lemma InnersConcat(a: seq<Prop>, b: seq<Prop>)
    requires Inners(a) && Inners(b)
    ensures Inners(a + b)
  {
  }

  lemma OneLinesConcat(a: seq<Prop>, b: seq<Prop>)
    requires OneLines(a) && OneLines(b)
    ensures OneLines(a + b)
  {
  }

  lemma OptionalsAreInner(ev: EventInput)
    requires Printable(ev)
    ensures Inners(OptionalProps(ev))
  {
    EscapedHasNoLf(ev.description);
    EscapedHasNoLf(ev.location);
    UpperHasNoLf(ev.status);
    OptionalKeysAreKeys();
    InnerProp("DESCRIPTION", "", EscapeIcs(ev.description), true);
    InnerProp("LOCATION", "", EscapeIcs(ev.location), true);
    InnerProp("STATUS", "", Upper(ev.status), false);
    InnerProp("RRULE", "", ev.rrule, false);
    var description := Optionally(ev.description != "", Prop("DESCRIPTION", "", EscapeIcs(ev.description), true));
    var location := Optionally(ev.location != "", Prop("LOCATION", "", EscapeIcs(ev.location), true));
    var status := Optionally(ev.status != "", Prop("STATUS", "", Upper(ev.status), false));
    var rrule := Optionally(ev.rrule != "", Prop("RRULE", "", ev.rrule, false));
    InnersConcat(description, location);
    InnersConcat(description + location, status);
    InnersConcat(description + location + status, rrule);
  }

  lemma OptionalKeysAreKeys()
    ensures IsKey("DESCRIPTION") && IsKey("LOCATION") && IsKey("STATUS") && IsKey("RRULE")
  {
  }

  lemma AttendeesAreInner(attendees: seq<string>)
    requires forall a | a in attendees :: LF !in a
    ensures Inners(Attendees(attendees))
  {
    forall i | 0 <= i < |attendees|
      ensures Inner(AttendeeProp(attendees[i]))
    {
      assert attendees[i] in attendees;
    }
  }

  lemma PropsAreInner(ev: EventInput)
    requires Printable(ev)
    ensures Inners(Props(ev))
  {
    FiveAreInner(ev);
    OptionalsAreInner(ev);
    AttendeesAreInner(ev.attendees);
    InnersConcat(FiveProps(ev), OptionalProps(ev));
    InnersConcat(FiveProps(ev) + OptionalProps(ev), Attendees(ev.attendees));
  }

  lemma RenderedIsConcat(a: seq<Prop>, b: seq<Prop>)
    ensures Rendered(a + b) == Rendered(a) + Rendered(b) && Texts(a + b) == Texts(a) + Texts(b)
  {
  }

  lemma FrameIsOneLine()
    ensures OneLines(HEADER) && OneLines(FOOTER)
  {
    FrameKeys();
    ProductHasNoLf();
    InnerProp("BEGIN", "", "VCALENDAR", false);
    InnerProp("VERSION", "", "2.0", false);
    InnerProp("PRODID", "", "-//StarlingAI//StarlingAI//EN", false);
    InnerProp("BEGIN", "", "VEVENT", false);
    InnerProp("END", "", "VEVENT", false);
    InnerProp("END", "", "VCALENDAR", false);
    FourOneLines(HEADER);
  }

  lemma ProductHasNoLf()
    ensures LF !in "-//StarlingAI//StarlingAI//EN" && LF !in "VCALENDAR" && LF !in "VEVENT" && LF !in "2.0"
  {
  }

  lemma FourOneLines(four: seq<Prop>)
    requires |four| == 4 && OneLine(four[0]) && OneLine(four[1]) && OneLine(four[2]) && OneLine(four[3])
    ensures OneLines(four)
  {
    forall p | p in four ensures OneLine(p) {
      var i :| 0 <= i < 4 && four[i] == p;
      assert i == 0 || i == 1 || i == 2 || i == 3;
    }
  }

  /** Unfolded and split, the printed text is its lines again. */
  lemma LinesOfFrame(header: seq<Prop>, props: seq<Prop>, footer: seq<Prop>)
    requires OneLines(header) && OneLines(footer) && Inners(props)
    ensures SplitLines(UnfoldIcs(Document(Rendered(header + props + footer))))
         == Texts(header) + (Texts(props) + (Texts(footer) + [""]))
  {
    var all := header + props + footer;
    OneLinesConcat(header, props);
    OneLinesConcat(header + props, footer);
    UnfoldDocument(all);
    SplitDocument(all);
    RenderedIsConcat(header + props, footer);
    RenderedIsConcat(header, props);
    FourParts(Texts(header), Texts(props), Texts(footer), [""]);
  }

  lemma FourParts<T>(a: seq<T>, b: seq<T>, c: seq<T>, d: seq<T>)
    ensures a + b + c + d == a + (b + (c + d))
  {
  }

  lemma ScanStep(line: string, rest: seq<string>, block: string, current: Option<Record>)
    ensures Scan([line] + rest, block, current)
         == if line == "BEGIN:" + block then Scan(rest, block, Some(map[]))
            else if line == "END:" + block then (if current.Some? then [current.value] else []) + Scan(rest, block, None)
            else Scan(rest, block, if current.Some? then Some(PutLine(current.value, line)) else None)
  {
    assert ([line] + rest)[1..] == rest;
  }

  lemma ScanFrame(block: string, h: seq<string>, rest: seq<string>)
    requires |h| == 4 && (forall i | 0 <= i < 3 :: h[i] != "BEGIN:" + block && h[i] != "END:" + block) && h[3] == "BEGIN:" + block
    ensures Scan(h + rest, block, None) == Scan(rest, block, Some(map[]))
  {
    assert h + rest == [h[0]] + ([h[1]] + ([h[2]] + ([h[3]] + rest)));
    ScanStep(h[0], [h[1]] + ([h[2]] + ([h[3]] + rest)), block, None);
    ScanStep(h[1], [h[2]] + ([h[3]] + rest), block, None);
    ScanStep(h[2], [h[3]] + rest, block, None);
    ScanStep(h[3], rest, block, None);
  }

  lemma ScanEnd(block: string, last: string, m: Record)
    requires last != "BEGIN:" + block && last != "END:" + block && "BEGIN:" + block != "END:" + block && "BEGIN:" + block != ""
    ensures Scan(["END:" + block, last, ""], block, Some(m)) == [m]
  {
    var end := "END:" + block;
    assert [end, last, ""] == [end] + ([last] + ([""] + []));
    ScanStep(end, [last] + ([""] + []), block, Some(m));
    ScanStep(last, [""] + [], block, None);
    ScanStep("", [], block, None);
    assert "" != end;
  }

  lemma ScanHeader(rest: seq<string>)
    ensures Scan(Texts(HEADER) + rest, "VEVENT", None) == Scan(rest, "VEVENT", Some(map[]))
  {
    var h := Texts(HEADER);
    assert |h[0]| == 15 && |h[1]| == 11 && |h[2]| == 36;
    assert "BEGIN" + "" + ":" == "BEGIN:";
    ScanFrame("VEVENT", h, rest);
  }

  lemma ScanFooter(m: Record)
    ensures Scan(Texts(FOOTER) + [""], "VEVENT", Some(m)) == [m]
  {
    assert "END" + "" + ":" == "END:";
    var last := Text(FOOTER[1]);
    assert |last| == 13;
    assert Texts(FOOTER) + [""] == ["END:" + "VEVENT", last, ""];
    assert ("BEGIN:" + "VEVENT")[0] == 'B';
    ScanEnd("VEVENT", last, m);
  }

  lemma RecordOfProps(props: seq<Prop>)
    requires Inners(props)
    ensures ParseIcsEvent(Document(Rendered(HEADER + props + FOOTER))) == Some(EventOf(PutAll(map[], props)))
  {
    FrameIsOneLine();
    LinesOfFrame(HEADER, props, FOOTER);
    ScanHeader(Texts(props) + (Texts(FOOTER) + [""]));
    ScanProps(map[], props, Texts(FOOTER) + [""]);
    ScanFooter(PutAll(map[], props));
  }

  lemma RecordOf(ev: EventInput)
    requires Printable(ev)
    ensures ParseIcsEvent(ICalString(ev)) == Some(EventOf(PutAll(map[], Props(ev))))
  {
    PropsAreInner(ev);
    RecordOfProps(Props(ev));
  }

  lemma {:induction false} NotAnAttendee(attendees: seq<string>, key: string)
    requires key != "ATTENDEE"
    ensures FirstValue(Attendees(attendees), key) == None
  {
    if attendees != [] {
      assert Attendees(attendees)[1..] == Attendees(attendees[1..]);
      NotAnAttendee(attendees[1..], key);
    }
  }

  lemma ValueOf(ev: EventInput, key: string)
    requires key != [] && key[0] != '_' && key != "ATTENDEE"
    ensures var r := PutAll(map[], Props(ev));
      var v := FirstValue(FiveProps(ev) + OptionalProps(ev), key);
      (key in r <==> v.Some?) && (v.Some? ==> r[key] == v.value)
  {
    FirstValueConcat(FiveProps(ev) + OptionalProps(ev), Attendees(ev.attendees), key);
    NotAnAttendee(ev.attendees, key);
    FirstWins(map[], Props(ev), key);
  }

  lemma {:induction false} FirstValueIs(ps: seq<Prop>, i: nat, key: string)
    requires i < |ps| && ps[i].key == key && forall j | 0 <= j < i :: ps[j].key != key
    ensures FirstValue(ps, key) == Some(ps[i].value)
  {
    if i > 0 {
      FirstValueIs(ps[1..], i - 1, key);
    }
  }

  lemma {:induction false} NoValue(ps: seq<Prop>, key: string)
    requires forall j | 0 <= j < |ps| :: ps[j].key != key
    ensures FirstValue(ps, key) == None
  {
    if ps != [] {
      NoValue(ps[1..], key);
    }
  }

  lemma FiveKeysDiffer()
    ensures "DTSTAMP" != "DTSTART" && "DTSTAMP" != "SUMMARY" && "DTSTART" != "SUMMARY" && "RRULE" != "DTEND"
  {
    assert "DTSTAMP"[5] == 'M' && "DTSTART"[5] == 'R' && "SUMMARY"[0] == 'S' && "DTSTAMP"[0] == 'D' && "DTSTART"[0] == 'D';
    assert "RRULE"[0] == 'R' && "DTEND"[0] == 'D';
  }

  lemma FiveValues(ev: EventInput)
    ensures var five := FiveProps(ev);
      && FirstValue(five, "UID") == Some(ev.uid)
      && FirstValue(five, "DTSTART") == Some(FormatIcsDate(ev.start, ev.allDay))
      && FirstValue(five, "DTEND") == Some(FormatIcsDate(ev.end, ev.allDay))
      && FirstValue(five, "SUMMARY") == Some(EscapeIcs(ev.title))
  {
    FiveKeysDiffer();
    FirstValueIs(FiveProps(ev), 0, "UID");
    FirstValueIs(FiveProps(ev), 2, "DTSTART");
    FirstValueIs(FiveProps(ev), 3, "DTEND");
    FirstValueIs(FiveProps(ev), 4, "SUMMARY");
  }

  lemma FiveLack(ev: EventInput)
    ensures var five := FiveProps(ev);
      && FirstValue(five, "DESCRIPTION") == None && FirstValue(five, "LOCATION") == None
      && FirstValue(five, "STATUS") == None && FirstValue(five, "RRULE") == None
  {
    FiveKeysDiffer();
    NoValue(FiveProps(ev), "DESCRIPTION");
    NoValue(FiveProps(ev), "LOCATION");
    NoValue(FiveProps(ev), "STATUS");
    NoValue(FiveProps(ev), "RRULE");
  }

  lemma OptionalValue(present: bool, p: Prop, rest: seq<Prop>, key: string)
    ensures FirstValue(Optionally(present, p) + rest, key) == if present && p.key == key then Some(p.value) else FirstValue(rest, key)
  {
    FirstValueConcat(Optionally(present, p), rest, key);
    assert FirstValue([], key) == None;
    assert present ==> Optionally(present, p)[1..] == [];
  }

  lemma FourValues(b1: bool, p1: Prop, b2: bool, p2: Prop, b3: bool, p3: Prop, b4: bool, p4: Prop, key: string)
    ensures FirstValue(Optionally(b1, p1) + Optionally(b2, p2) + Optionally(b3, p3) + Optionally(b4, p4), key)
         == if b1 && p1.key == key then Some(p1.value)
            else if b2 && p2.key == key then Some(p2.value)
            else if b3 && p3.key == key then Some(p3.value)
            else if b4 && p4.key == key then Some(p4.value)
            else None
  {
    var l2, l3, l4 := Optionally(b2, p2), Optionally(b3, p3), Optionally(b4, p4);
    assert Optionally(b1, p1) + l2 + l3 + l4 == Optionally(b1, p1) + (l2 + (l3 + (l4 + [])));
    OptionalValue(b1, p1, l2 + (l3 + (l4 + [])), key);
    OptionalValue(b2, p2, l3 + (l4 + []), key);
    OptionalValue(b3, p3, l4 + [], key);
    OptionalValue(b4, p4, [], key);
  }

  lemma FourKeys(b1: bool, p1: Prop, b2: bool, p2: Prop, b3: bool, p3: Prop, b4: bool, p4: Prop)
    ensures forall p | p in Optionally(b1, p1) + Optionally(b2, p2) + Optionally(b3, p3) + Optionally(b4, p4) ::
      p in {p1, p2, p3, p4}
  {
  }

  lemma OptionalValues(ev: EventInput, key: string)
    ensures FirstValue(OptionalProps(ev), key)
         == if ev.description != "" && "DESCRIPTION" == key then Some(EscapeIcs(ev.description))
            else if ev.location != "" && "LOCATION" == key then Some(EscapeIcs(ev.location))
            else if ev.status != "" && "STATUS" == key then Some(Upper(ev.status))
            else if ev.rrule != "" && "RRULE" == key then Some(ev.rrule)
            else None
  {
    FourValues(ev.description != "", Prop("DESCRIPTION", "", EscapeIcs(ev.description), true),
               ev.location != "", Prop("LOCATION", "", EscapeIcs(ev.location), true),
               ev.status != "", Prop("STATUS", "", Upper(ev.status), false),
               ev.rrule != "", Prop("RRULE", "", ev.rrule, false), key);
  }

  lemma OptionalKeys(ev: EventInput)
    ensures forall p | p in OptionalProps(ev) :: p.key != "ATTENDEE"
  {
    assert "LOCATION"[0] == 'L' && "ATTENDEE"[0] == 'A';
    FourKeys(ev.description != "", Prop("DESCRIPTION", "", EscapeIcs(ev.description), true),
             ev.location != "", Prop("LOCATION", "", EscapeIcs(ev.location), true),
             ev.status != "", Prop("STATUS", "", Upper(ev.status), false),
             ev.rrule != "", Prop("RRULE", "", ev.rrule, false));
  }

  lemma SimpleValues(ev: EventInput)
    ensures var r := PutAll(map[], Props(ev));
      && Get(r, "UID") == ev.uid && Get(r, "SUMMARY") == EscapeIcs(ev.title)
      && Get(r, "DTSTART") == FormatIcsDate(ev.start, ev.allDay) && Get(r, "DTEND") == FormatIcsDate(ev.end, ev.allDay)
      && Get(r, "DESCRIPTION") == EscapeIcs(ev.description) && Get(r, "LOCATION") == EscapeIcs(ev.location)
      && ("STATUS" in r <==> ev.status != "") && Get(r, "STATUS") == Upper(ev.status)
      && ("RRULE" in r <==> ev.rrule != "") && Get(r, "RRULE") == ev.rrule
  {
    FiveValues(ev);
    FiveLack(ev);
    SimpleValue(ev, "UID");
    SimpleValue(ev, "SUMMARY");
    SimpleValue(ev, "DTSTART");
    SimpleValue(ev, "DTEND");
    SimpleValue(ev, "DESCRIPTION");
    SimpleValue(ev, "LOCATION");
    SimpleValue(ev, "STATUS");
    SimpleValue(ev, "RRULE");
    assert EscapeIcs("") == "" && Upper("") == "";
  }

  lemma SimpleValue(ev: EventInput, key: string)
    requires key != [] && key[0] != '_' && key != "ATTENDEE"
    ensures var r := PutAll(map[], Props(ev));
      var v := if FirstValue(FiveProps(ev), key).Some? then FirstValue(FiveProps(ev), key)
               else if ev.description != "" && "DESCRIPTION" == key then Some(EscapeIcs(ev.description))
               else if ev.location != "" && "LOCATION" == key then Some(EscapeIcs(ev.location))
               else if ev.status != "" && "STATUS" == key then Some(Upper(ev.status))
               else if ev.rrule != "" && "RRULE" == key then Some(ev.rrule)
               else None;
      (key in r <==> v.Some?) && Get(r, key) == if v.Some? then v.value else ""
  {
    ValueOf(ev, key);
    FirstValueConcat(FiveProps(ev), OptionalProps(ev), key);
    OptionalValues(ev, key);
  }

  function AttendeeTexts(attendees: seq<string>): seq<string> {
    seq(|attendees|, i requires 0 <= i < |attendees| => "mailto:" + attendees[i])
  }

  lemma {:induction false} ListedAttendees(attendees: seq<string>)
    ensures AttendeeValues(Attendees(attendees)) == AttendeeTexts(attendees)
  {
    if attendees != [] {
      ListedAttendees(attendees[1..]);
      assert Attendees(attendees)[1..] == Attendees(attendees[1..]);
    }
  }

  lemma {:induction false} NoAttendees(ps: seq<Prop>)
    requires forall j | 0 <= j < |ps| :: ps[j].key != "ATTENDEE"
    ensures AttendeeValues(ps) == []
  {
    if ps != [] {
      NoAttendees(ps[1..]);
    }
  }

  /** The addresses read back from the printed attendees. */
  function ReadBack(attendees: seq<string>): seq<string> {
    seq(|attendees|, i requires 0 <= i < |attendees| => Mailto("mailto:" + attendees[i]))
  }

  lemma MailtosCons(first: string, rest: seq<string>)
    requires first != ""
    ensures Mailtos([first] + rest) == [Mailto(first)] + Mailtos(rest)
  {
    assert ([first] + rest)[1..] == rest;
  }

  lemma AttendeesCons(attendees: seq<string>)
    requires attendees != []
    ensures AttendeeTexts(attendees) == ["mailto:" + attendees[0]] + AttendeeTexts(attendees[1..])
    ensures ReadBack(attendees) == [Mailto("mailto:" + attendees[0])] + ReadBack(attendees[1..])
  {
  }

  lemma {:induction false} MailtosOf(attendees: seq<string>)
    ensures Mailtos(AttendeeTexts(attendees)) == ReadBack(attendees)
  {
    if attendees != [] {
      MailtosOf(attendees[1..]);
      AttendeesCons(attendees);
      MailtosCons("mailto:" + attendees[0], AttendeeTexts(attendees[1..]));
    }
  }

  lemma OthersAreNotAttendees(ev: EventInput)
    ensures AttendeeValues(FiveProps(ev) + OptionalProps(ev)) == []
    ensures FirstValue(FiveProps(ev) + OptionalProps(ev), "ATTENDEE") == None
  {
    var others := FiveProps(ev) + OptionalProps(ev);
    OptionalKeys(ev);
    FiveKeys(ev);
    LacksConcat(FiveProps(ev), OptionalProps(ev), "ATTENDEE");
    NoAttendees(others);
    NoValue(others, "ATTENDEE");
  }

  lemma FiveKeys(ev: EventInput)
    ensures forall p | p in FiveProps(ev) :: p.key != "ATTENDEE"
  {
  }

  lemma LacksConcat(a: seq<Prop>, b: seq<Prop>, key: string)
    requires (forall p | p in a :: p.key != key) && forall p | p in b :: p.key != key
    ensures forall j | 0 <= j < |a + b| :: (a + b)[j].key != key
  {
    forall j | 0 <= j < |a + b| ensures (a + b)[j].key != key {
      assert (a + b)[j] in a || (a + b)[j] in b;
    }
  }

  lemma AttendeeTextsAreTexts(attendees: seq<string>)
    requires forall a | a in attendees :: LF !in a
    ensures forall v | v in AttendeeTexts(attendees) :: v != "" && LF !in v
  {
  }

  lemma AttendeeRecord(ev: EventInput)
    requires Printable(ev)
    ensures var r := PutAll(map[], Props(ev));
      Mailtos(SplitOn(if "_ATTENDEES" in r then r["_ATTENDEES"] else Get(r, "ATTENDEE"), LF)) == ReadBack(ev.attendees)
  {
    PropsAreInner(ev);
    OthersAreNotAttendees(ev);
    var others := FiveProps(ev) + OptionalProps(ev);
    assert Props(ev) == others + Attendees(ev.attendees);
    RecordedAttendees(others, ev.attendees);
  }

  lemma RecordedAttendees(others: seq<Prop>, attendees: seq<string>)
    requires Inners(others + Attendees(attendees))
    requires AttendeeValues(others) == [] && FirstValue(others, "ATTENDEE") == None
    requires forall a | a in attendees :: LF !in a
    ensures var r := PutAll(map[], others + Attendees(attendees));
      Mailtos(SplitOn(if "_ATTENDEES" in r then r["_ATTENDEES"] else Get(r, "ATTENDEE"), LF)) == ReadBack(attendees)
  {
    var ps := others + Attendees(attendees);
    var r := PutAll(map[], ps);
    ListedAttendees(attendees);
    AttendeeValuesConcat(others, Attendees(attendees));
    AttendeesAccumulate(map[], ps);
    assert Get(map[], "_ATTENDEES") == "";
    if attendees == [] {
      FirstValueConcat(others, Attendees(attendees), "ATTENDEE");
      assert FirstValue(Attendees(attendees), "ATTENDEE") == None;
      FirstWins(map[], ps, "ATTENDEE");
      NobodyListed();
    } else {
      ReadListed(attendees);
      assert AttendeeValues(ps) == AttendeeTexts(attendees);
      assert "_ATTENDEES" in r && r["_ATTENDEES"] == Joined("", AttendeeTexts(attendees));
    }
  }

  lemma NobodyListed()
    ensures Mailtos(SplitOn("", LF)) == [] == ReadBack([])
  {
    assert SplitOn("", LF) == [""];
    assert Mailtos([""]) == [] by { assert Mailtos([]) == []; }
  }

  lemma ReadListed(attendees: seq<string>)
    requires attendees != [] && forall a | a in attendees :: LF !in a
    ensures AttendeeTexts(attendees) != []
    ensures Mailtos(SplitOn(Joined("", AttendeeTexts(attendees)), LF)) == ReadBack(attendees)
  {
    AttendeeTextsAreTexts(attendees);
    SplitJoined(AttendeeTexts(attendees));
    MailtosOf(attendees);
  }

  /** What reading gives back, for every printable event: the titles with backslash-n slipped, the dates as
      their printed form reads, the addresses up to their first blank or semicolon. */
  function Recovered(ev: EventInput): Event {
    var start := ParseIcsDtValue(FormatIcsDate(ev.start, ev.allDay));
    Event(ev.uid, Slip(ev.title), start.iso, ParseIcsDtValue(FormatIcsDate(ev.end, ev.allDay)).iso, start.allDay,
          Slip(ev.description), Slip(ev.location), if ev.status != "" then Upper(ev.status) else "CONFIRMED",
          ReadBack(ev.attendees), if ev.rrule != "" then Some(ev.rrule) else None)
  }

  /** The event as it was handed to the printer. */
  function Faithful(ev: EventInput): Event {
    Event(ev.uid, ev.title, Iso(ev.start, ev.allDay), Iso(ev.end, ev.allDay), ev.allDay,
          ev.description, ev.location, if ev.status != "" then Upper(ev.status) else "CONFIRMED",
          ev.attendees, if ev.rrule != "" then Some(ev.rrule) else None)
  }

  /** Through escaping, folding, unfolding, line splitting and first-wins scanning, every property comes back. */
  lemma PrintedComesBack(ev: EventInput)
    requires Printable(ev)
    ensures ParseIcsEvent(ICalString(ev)) == Some(Recovered(ev))
  {
    RecordOf(ev);
    SimpleValues(ev);
    AttendeeRecord(ev);
    UnescapeEscape(ev.title);
    UnescapeEscape(ev.description);
    UnescapeEscape(ev.location);
    PrintedDateIsTrimmed(ev.start, ev.allDay);
    PrintedDateIsTrimmed(ev.end, ev.allDay);
  }

  // ---- What is read of calendars that others wrote ----

  /** A line gives its value to its key, in any case, whatever parameters stand behind the key; one without a colon nothing. */
  lemma PutLineIs(m: Record, key: string, params: string, value: string)
    requires ':' !in key && ';' !in key && ':' !in params && (params == "" || params[0] == ';')
    ensures PutLine(m, key + params + ":" + value) == Put(m, Upper(key), value)
    ensures PutLine(m, key + params) == m
  {
    var fullKey, line := key + params, key + params + ":" + value;
    assert line[..|fullKey|] == fullKey && line[|fullKey| + 1..] == value;
    FirstIndexIs(line, ':', |fullKey|);
    FirstIndexIs(fullKey, ':', |fullKey|);
    assert fullKey[..|key|] == key;
    FirstIndexIs(fullKey, ';', |key|);
  }

  function PutLines(m: Record, lines: seq<string>): Record
    decreases lines
  {
    if lines == [] then m else PutLines(PutLine(m, lines[0]), lines[1..])
  }

  ghost predicate NoFrames(lines: seq<string>, block: string) {
    forall i | 0 <= i < |lines| :: lines[i] != "BEGIN:" + block && lines[i] != "END:" + block
  }

  lemma {:induction false} ScanBody(lines: seq<string>, rest: seq<string>, block: string, current: Option<Record>)
    requires NoFrames(lines, block)
    ensures Scan(lines + rest, block, current) == Scan(rest, block, if current.Some? then Some(PutLines(current.value, lines)) else None)
    decreases lines
  {
    if lines == [] {
      assert lines + rest == rest;
    } else {
      assert lines + rest == [lines[0]] + (lines[1..] + rest);
      ScanStep(lines[0], lines[1..] + rest, block, current);
      ScanBody(lines[1..], rest, block, if current.Some? then Some(PutLine(current.value, lines[0])) else None);
    }
  }

  lemma FramesDiffer(block: string)
    ensures "BEGIN:" + block != "END:" + block
  {
    assert ("BEGIN:" + block)[0] == 'B' && ("END:" + block)[0] == 'E';
  }

  /** Lines outside a block are skipped, a block begun and ended is a record of its lines, one begun again starts anew, and
      one that is not ended is none. */
  lemma ScanBlocks(lines: seq<string>, rest: seq<string>, block: string, current: Option<Record>)
    requires NoFrames(lines, block)
    ensures Scan(lines + rest, block, None) == Scan(rest, block, None)
    ensures Scan(["BEGIN:" + block] + (lines + (["END:" + block] + rest)), block, current)
         == [PutLines(map[], lines)] + Scan(rest, block, None)
    ensures Scan(["BEGIN:" + block] + (lines + (["BEGIN:" + block] + rest)), block, current) == Scan(["BEGIN:" + block] + rest, block, None)
    ensures Scan(["BEGIN:" + block] + lines, block, current) == []
    ensures Scan(["END:" + block] + rest, block, None) == Scan(rest, block, None)
  {
    FramesDiffer(block);
    var begin, end := "BEGIN:" + block, "END:" + block;
    ScanBody(lines, rest, block, None);
    ScanStep(begin, lines + ([end] + rest), block, current);
    ScanBody(lines, [end] + rest, block, Some(map[]));
    ScanStep(end, rest, block, Some(PutLines(map[], lines)));
    ScanStep(begin, lines + ([begin] + rest), block, current);
    ScanBody(lines, [begin] + rest, block, Some(map[]));
    ScanStep(begin, rest, block, Some(PutLines(map[], lines)));
    ScanStep(begin, rest, block, None);
    ScanStep(begin, lines, block, current);
    ScanBody(lines, [], block, Some(map[]));
    assert lines + [] == lines;
    ScanStep(end, rest, block, None);
    assert [] + Scan(rest, block, None) == Scan(rest, block, None);
  }

  /** The first value of a property, if it has one. */
  function ValueOr(ps: seq<Prop>, key: string, other: string): string {
    if FirstValue(ps, key).Some? then FirstValue(ps, key).value else other
  }

  function Addresses(values: seq<string>): seq<string> {
    seq(|values|, i requires 0 <= i < |values| => Mailto(values[i]))
  }

  /** What any properties in an event's block are read as, whatever stands behind the block: the first of each key counts;
      without an end the event ends when it starts, without a status it is confirmed, without a start it has no dates
      but its end. */
  ghost predicate ReadsAs(ps: seq<Prop>, e: Event) {
    && e.uid == ValueOr(ps, "UID", "") && e.title == UnescapeIcs(ValueOr(ps, "SUMMARY", ""))
    && e.description == UnescapeIcs(ValueOr(ps, "DESCRIPTION", "")) && e.location == UnescapeIcs(ValueOr(ps, "LOCATION", ""))
    && e.status == ValueOr(ps, "STATUS", "CONFIRMED") && e.rrule == FirstValue(ps, "RRULE")
    && (var start := ValueOr(ps, "DTSTART", "");
        if start == "" then e.start == "" && !e.allDay
        else e.start == ParseIcsDtValue(start).iso && e.allDay == ParseIcsDtValue(start).allDay)
    && (var end := ValueOr(ps, "DTEND", ""); e.end == if end == "" then e.start else ParseIcsDtValue(end).iso)
    && ((forall v | v in AttendeeValues(ps) :: v != "" && LF !in v) ==> e.attendees == Addresses(AttendeeValues(ps)))
  }

  lemma RecordValue(ps: seq<Prop>, key: string)
    requires key != [] && key[0] != '_'
    ensures var r := PutAll(map[], ps); (key in r <==> FirstValue(ps, key).Some?) && Get(r, key) == ValueOr(ps, key, "")
  {
    FirstWins(map[], ps, key);
  }

  lemma {:induction false} MailtosAre(values: seq<string>)
    requires forall v | v in values :: v != ""
    ensures Mailtos(values) == Addresses(values)
  {
    if values != [] {
      assert values[0] in values && forall v | v in values[1..] :: v in values;
      MailtosAre(values[1..]);
    }
  }

  lemma {:induction false} NoneListed(ps: seq<Prop>)
    ensures AttendeeValues(ps) == [] <==> FirstValue(ps, "ATTENDEE") == None
  {
    if ps != [] {
      NoneListed(ps[1..]);
    }
  }

  lemma RecordAttendees(ps: seq<Prop>)
    requires Inners(ps) && forall v | v in AttendeeValues(ps) :: v != "" && LF !in v
    ensures var r := PutAll(map[], ps);
      Mailtos(SplitOn(if "_ATTENDEES" in r then r["_ATTENDEES"] else Get(r, "ATTENDEE"), LF)) == Addresses(AttendeeValues(ps))
  {
    AttendeesAccumulate(map[], ps);
    var values := AttendeeValues(ps);
    if values == [] {
      NoneListed(ps);
      RecordValue(ps, "ATTENDEE");
      NobodyListed();
    } else {
      SplitJoined(values);
      MailtosAre(values);
    }
  }

  lemma EventReads(ps: seq<Prop>)
    requires Inners(ps)
    ensures ReadsAs(ps, EventOf(PutAll(map[], ps)))
  {
    RecordValue(ps, "UID");
    RecordValue(ps, "SUMMARY");
    RecordValue(ps, "DTSTART");
    RecordValue(ps, "DTEND");
    RecordValue(ps, "DESCRIPTION");
    RecordValue(ps, "LOCATION");
    RecordValue(ps, "STATUS");
    RecordValue(ps, "RRULE");
    if forall v | v in AttendeeValues(ps) :: v != "" && LF !in v { RecordAttendees(ps); }
  }

  /** The first event of a calendar is read, by its properties, whatever comes behind it. */
  lemma FirstEventIsRead(ps: seq<Prop>, rest: seq<Prop>)
    requires Inners(ps) && OneLines(rest)
    ensures var e := ParseIcsEvent(Document(Rendered(HEADER + ps + ([Prop("END", "", "VEVENT", false)] + rest))));
      e.Some? && ReadsAs(ps, e.value)
  {
    var end := Prop("END", "", "VEVENT", false);
    EndIsOneLine(end, rest);
    LinesOfFrame(HEADER, ps, [end] + rest);
    var behind := Texts(rest) + [""];
    TextsOfMore(end, rest, [""]);
    ScanHeader(Texts(ps) + ([Text(end)] + behind));
    ScanProps(map[], ps, [Text(end)] + behind);
    EndCloses(PutAll(map[], ps), behind);
    EventReads(ps);
  }

  lemma EndCloses(m: Record, behind: seq<string>)
    ensures Scan([Text(Prop("END", "", "VEVENT", false))] + behind, "VEVENT", Some(m)) == [m] + Scan(behind, "VEVENT", None)
  {
    assert "END" + "" + ":" + "VEVENT" == "END:" + "VEVENT";
    FramesDiffer("VEVENT");
    ScanStep(Text(Prop("END", "", "VEVENT", false)), behind, "VEVENT", Some(m));
  }

  lemma EndIsOneLine(end: Prop, rest: seq<Prop>)
    requires end == Prop("END", "", "VEVENT", false) && OneLines(rest)
    ensures OneLines(HEADER) && OneLines([end] + rest)
  {
    FrameIsOneLine();
    FrameKeys();
    ProductHasNoLf();
    InnerProp("END", "", "VEVENT", false);
  }

  lemma TextsOfMore(p: Prop, rest: seq<Prop>, tail: seq<string>)
    ensures Texts([p] + rest) + tail == [Text(p)] + (Texts(rest) + tail)
  {
  }

  // ---- What is printed ----

  /** The print holds the opening lines, the five of every event, those of what is given, the attendees, and the closing. */
  lemma PrintIs(ev: EventInput)
    ensures ICalString(ev) == Document(
      Rendered(HEADER) + Rendered(FiveProps(ev)) + Rendered(OptionalProps(ev)) + Rendered(Attendees(ev.attendees)) + Rendered(FOOTER))
  {
    RenderedIsConcat(HEADER + Props(ev), FOOTER);
    RenderedIsConcat(HEADER, Props(ev));
    RenderedIsConcat(FiveProps(ev) + OptionalProps(ev), Attendees(ev.attendees));
    RenderedIsConcat(FiveProps(ev), OptionalProps(ev));
    FiveLists(Rendered(HEADER), Rendered(FiveProps(ev)), Rendered(OptionalProps(ev)), Rendered(Attendees(ev.attendees)), Rendered(FOOTER));
  }

  lemma FiveLists<T>(a: seq<T>, b: seq<T>, c: seq<T>, d: seq<T>, e: seq<T>)
    ensures a + (b + c + d) + e == (a + b) + c + d + e
  {
  }

  lemma TextIs(key: string, params: string, value: string, folded: bool)
    ensures Text(Prop(key, params, value, folded)) == key + params + ":" + value
    ensures params == "" ==> Text(Prop(key, params, value, folded)) == (key + ":") + value
  {
    assert params == "" ==> key + params == key;
  }

  /** The five: the title is folded. */
  lemma FiveAre(ev: EventInput)
    ensures var date := if ev.allDay then ";VALUE=DATE:" else ":";
      Rendered(FiveProps(ev)) ==
        ["UID:" + ev.uid, "DTSTAMP:" + FormatIcsDate(ev.now, false),
         "DTSTART" + date + FormatIcsDate(ev.start, ev.allDay), "DTEND" + date + FormatIcsDate(ev.end, ev.allDay),
         Fold("SUMMARY:" + EscapeIcs(ev.title))]
  {
    var asDate := if ev.allDay then ";VALUE=DATE" else "";
    TextIs("UID", "", ev.uid, false);
    TextIs("DTSTAMP", "", FormatIcsDate(ev.now, false), false);
    TextIs("SUMMARY", "", EscapeIcs(ev.title), true);
    DatedText("DTSTART", ev.allDay, FormatIcsDate(ev.start, ev.allDay));
    DatedText("DTEND", ev.allDay, FormatIcsDate(ev.end, ev.allDay));
    assert "UID" + ":" == "UID:" && "DTSTAMP" + ":" == "DTSTAMP:" && "SUMMARY" + ":" == "SUMMARY:";
  }

  lemma DatedText(key: string, allDay: bool, value: string)
    ensures Text(Prop(key, if allDay then ";VALUE=DATE" else "", value, false)) == key + (if allDay then ";VALUE=DATE:" else ":") + value
  {
    if allDay {
      assert key + ";VALUE=DATE" + ":" == key + ";VALUE=DATE:";
    } else {
      assert key + "" + ":" == key + ":";
    }
  }

  lemma RenderedOptionally(present: bool, p: Prop, line: string)
    requires Render(p) == line
    ensures Rendered(Optionally(present, p)) == if present then [line] else []
  {
  }

  lemma LongKeys()
    ensures "DESCRIPTION" + ":" == "DESCRIPTION:" && "LOCATION" + ":" == "LOCATION:"
  {
  }

  /** Those of what is given: a description and a location are folded. */
  lemma OptionalsAre(ev: EventInput)
    ensures Rendered(OptionalProps(ev)) ==
      (if ev.description != "" then [Fold("DESCRIPTION:" + EscapeIcs(ev.description))] else [])
      + (if ev.location != "" then [Fold("LOCATION:" + EscapeIcs(ev.location))] else [])
      + (if ev.status != "" then ["STATUS:" + Upper(ev.status)] else [])
      + (if ev.rrule != "" then ["RRULE:" + ev.rrule] else [])
  {
    var description := Prop("DESCRIPTION", "", EscapeIcs(ev.description), true);
    var location := Prop("LOCATION", "", EscapeIcs(ev.location), true);
    var status := Prop("STATUS", "", Upper(ev.status), false);
    var rrule := Prop("RRULE", "", ev.rrule, false);
    TextIs("DESCRIPTION", "", EscapeIcs(ev.description), true);
    TextIs("LOCATION", "", EscapeIcs(ev.location), true);
    TextIs("STATUS", "", Upper(ev.status), false);
    TextIs("RRULE", "", ev.rrule, false);
    LongKeys();
    RenderedOptionally(ev.description != "", description, Fold("DESCRIPTION:" + EscapeIcs(ev.description)));
    RenderedOptionally(ev.location != "", location, Fold("LOCATION:" + EscapeIcs(ev.location)));
    RenderedOptionally(ev.status != "", status, "STATUS:" + Upper(ev.status));
    RenderedOptionally(ev.rrule != "", rrule, "RRULE:" + ev.rrule);
    FourRendered(Optionally(ev.description != "", description), Optionally(ev.location != "", location),
                 Optionally(ev.status != "", status), Optionally(ev.rrule != "", rrule));
  }

  lemma FourRendered(a: seq<Prop>, b: seq<Prop>, c: seq<Prop>, d: seq<Prop>)
    ensures Rendered(a + b + c + d) == Rendered(a) + Rendered(b) + Rendered(c) + Rendered(d)
  {
    RenderedIsConcat(a, b);
    RenderedIsConcat(a + b, c);
    RenderedIsConcat(a + b + c, d);
  }

  /** The attendees, one by one, folded. */
  lemma AttendeeLines(attendees: seq<string>, i: nat)
    requires i < |attendees|
    ensures |Rendered(Attendees(attendees))| == |attendees|
    ensures Rendered(Attendees(attendees))[i] == Fold("ATTENDEE;RSVP=TRUE:" + ("mailto:" + attendees[i]))
  {
    AttendeeKey();
  }

  lemma AttendeeKey()
    ensures "ATTENDEE" + ";RSVP=TRUE" + ":" == "ATTENDEE;RSVP=TRUE:"
  {
  }

  // ---- No value that is read holds a line feed ----

  lemma {:induction false} LinesHaveNoLf(s: string)
    ensures forall line | line in SplitLines(s) :: LF !in line
    decreases |s|
  {
    var i := FirstIndex(s, LF);
    if i < |s| {
      LinesHaveNoLf(s[i + 1..]);
    }
  }

  lemma {:induction false} PartsHaveNoLf(s: string)
    ensures forall part | part in SplitOn(s, LF) :: LF !in part
    decreases |s|
  {
    var i := FirstIndex(s, LF);
    if i < |s| {
      PartsHaveNoLf(s[i + 1..]);
    }
  }

  /** Under every key but those that accumulate. */
  ghost predicate OneLineValues(m: Record) {
    forall key | key in m && key != [] && key[0] != '_' :: LF !in m[key]
  }

  lemma PutLineKeepsOneLine(m: Record, line: string)
    requires OneLineValues(m) && LF !in line
    ensures OneLineValues(PutLine(m, line))
  {
    assert forall key :: ListKey(key)[0] == '_';
  }

  lemma {:induction false} ScannedHaveOneLine(lines: seq<string>, block: string, current: Option<Record>)
    requires (forall line | line in lines :: LF !in line) && (current.Some? ==> OneLineValues(current.value))
    ensures forall m | m in Scan(lines, block, current) :: OneLineValues(m)
  {
    if lines != [] {
      assert lines[0] in lines;
      var next := if lines[0] == "BEGIN:" + block then Some(map[]) else if lines[0] == "END:" + block then None
                  else if current.Some? then Some(PutLine(current.value, lines[0])) else None;
      if current.Some? { PutLineKeepsOneLine(current.value, lines[0]); }
      ScannedHaveOneLine(lines[1..], block, next);
    }
  }

  lemma {:induction false} MailtoHasNoLf(rest: string, value: string)
    requires LF !in rest && LF !in value
    ensures LF !in MailtoFrom(rest, value)
  {
    if |rest| >= 8 && Upper(rest[..7]) == "MAILTO:" && !StopsAddress(rest[7]) {
      AddressHasNoLf(rest[7..]);
    } else if rest != [] {
      MailtoHasNoLf(rest[1..], value);
    }
  }

  lemma {:induction false} AddressHasNoLf(s: string)
    ensures LF !in Address(s)
  {
    if s != [] && !StopsAddress(s[0]) {
      AddressHasNoLf(s[1..]);
    }
  }

  lemma {:induction false} MailtosHaveNoLf(values: seq<string>)
    requires forall v | v in values :: LF !in v
    ensures forall a | a in Mailtos(values) :: LF !in a
  {
    if values != [] {
      assert values[0] in values;
      MailtoHasNoLf(values[0], values[0]);
      MailtosHaveNoLf(values[1..]);
    }
  }

  /** What is read from any text: uid, status, rule and addresses are of one line. */
  lemma ReadIsOneLined(data: string)
    requires ParseIcsEvent(data).Some?
    ensures var e := ParseIcsEvent(data).value;
      && LF !in e.uid && LF !in e.status && (e.rrule.Some? ==> LF !in e.rrule.value) && forall a | a in e.attendees :: LF !in a
  {
    var lines := SplitLines(UnfoldIcs(data));
    LinesHaveNoLf(UnfoldIcs(data));
    ScannedHaveOneLine(lines, "VEVENT", None);
    var m := Scan(lines, "VEVENT", None)[0];
    assert OneLineValues(m);
    var attendees := if "_ATTENDEES" in m then m["_ATTENDEES"] else Get(m, "ATTENDEE");
    PartsHaveNoLf(attendees);
    MailtosHaveNoLf(SplitOn(attendees, LF));
    PlainKeys();
  }

  lemma PlainKeys()
    ensures "UID"[0] != '_' && "STATUS"[0] != '_' && "RRULE"[0] != '_' && LF !in "CONFIRMED"
  {
  }

  lemma UpperKeepsLf(s: string)
    ensures LF in Upper(s) <==> LF in s
  {
    forall i | 0 <= i < |s| ensures Upper(s)[i] == LF <==> s[i] == LF {
    }
  }

  /** Every property comes back of an event without a line feed in what is printed verbatim; with one in the uid,
      the status or the rule it does not. */
  lemma ParseUndoesPrint(ev: EventInput)
    requires ValidDates(ev)
    ensures OneLined(ev) ==> ParseIcsEvent(ICalString(ev)) == Some(Recovered(ev))
    ensures ParseIcsEvent(ICalString(ev)) == Some(Recovered(ev)) ==> LF !in ev.uid && LF !in ev.status && LF !in ev.rrule
  {
    if OneLined(ev) {
      PrintedComesBack(ev);
    } else if ParseIcsEvent(ICalString(ev)).Some? {
      ReadIsOneLined(ICalString(ev));
      UpperKeepsLf(ev.status);
    }
  }

  // ---- A line feed in what is printed verbatim ----

  lemma {:induction false} OneLineIsTwo(a: seq<string>, x: string, y: string, b: seq<string>)
    ensures Document(a + [x + CRLF + y] + b) == Document(a + [x, y] + b)
  {
    if a == [] {
      DocumentCons(x + CRLF + y, b);
      DocumentCons(x, [y] + b);
      DocumentCons(y, b);
      assert [] + [x + CRLF + y] + b == [x + CRLF + y] + b && [] + [x, y] + b == [x] + ([y] + b);
      assert x + CRLF + y + CRLF + Document(b) == x + CRLF + (y + CRLF + Document(b));
    } else {
      OneLineIsTwo(a[1..], x, y, b);
      assert a + [x + CRLF + y] + b == [a[0]] + (a[1..] + [x + CRLF + y] + b);
      assert a + [x, y] + b == [a[0]] + (a[1..] + [x, y] + b);
      DocumentCons(a[0], a[1..] + [x + CRLF + y] + b);
      DocumentCons(a[0], a[1..] + [x, y] + b);
    }
  }

  lemma RenderedParts(header: seq<Prop>, p: Prop, rest: seq<Prop>, footer: seq<Prop>)
    ensures Rendered(header + ([p] + rest) + footer) == Rendered(header) + [Render(p)] + (Rendered(rest) + Rendered(footer))
  {
  }

  lemma RenderedTwo(header: seq<Prop>, p: Prop, q: Prop, rest: seq<Prop>, footer: seq<Prop>)
    ensures Rendered(header + ([p, q] + rest) + footer) == Rendered(header) + [Render(p), Render(q)] + (Rendered(rest) + Rendered(footer))
  {
  }

  lemma UidIsFirst(ev: EventInput, rest: seq<Prop>)
    requires rest == Props(ev)[1..]
    ensures Props(ev) == [Prop("UID", "", ev.uid, false)] + rest
  {
    PropsWithUid(ev, ev.uid, Prop("UID", "", ev.uid, false));
  }

  /** A uid with a line break prints as if its second line were a property of its own. */
  lemma UidOfTwoLines(ev: EventInput, first: string, key: string, value: string)
    requires ev.uid == first + CRLF + (key + "" + ":" + value)
    ensures ICalString(ev) == Document(Rendered(HEADER + ([Prop("UID", "", first, false), Prop(key, "", value, false)] + Props(ev)[1..]) + FOOTER))
  {
    var p, q, rest := Prop("UID", "", first, false), Prop(key, "", value, false), Props(ev)[1..];
    UidIsFirst(ev, rest);
    RenderedParts(HEADER, Prop("UID", "", ev.uid, false), rest, FOOTER);
    RenderedTwo(HEADER, p, q, rest, FOOTER);
    LineOfUid(first, Text(q));
    OneLineIsTwo(Rendered(HEADER), Text(p), Text(q), Rendered(rest) + Rendered(FOOTER));
  }

  lemma LineOfUid(first: string, second: string)
    ensures Text(Prop("UID", "", first + CRLF + second, false)) == Text(Prop("UID", "", first, false)) + CRLF + second
  {
    var k := "UID" + "" + ":";
    assert k + (first + CRLF + second) == k + first + CRLF + second;
  }

  lemma LocationKey()
    ensures IsKey("LOCATION") && "LOCATION"[0] == 'L' && "UID"[0] == 'U'
  {
  }

  lemma TwoKeysFirst(ps: seq<Prop>, first: string, second: string)
    requires |ps| >= 2 && ps[0].key == first && ps[1].key == second && first != second
    requires first != "" && first[0] != '_' && second != "" && second[0] != '_'
    ensures var r := PutAll(map[], ps); Get(r, first) == ps[0].value && Get(r, second) == ps[1].value
  {
    FirstValueIs(ps, 0, first);
    FirstValueIs(ps, 1, second);
    FirstWins(map[], ps, first);
    FirstWins(map[], ps, second);
  }

  lemma UidThenLocation(rest: seq<Prop>, first: string, value: string)
    requires Inners([Prop("UID", "", first, false)] + rest) && LF !in value
    ensures var props := [Prop("UID", "", first, false), Prop("LOCATION", "", value, false)] + rest;
      && Inners(props) && EventOf(PutAll(map[], props)).uid == first
      && EventOf(PutAll(map[], props)).location == UnescapeIcs(value)
  {
    var p, q := Prop("UID", "", first, false), Prop("LOCATION", "", value, false);
    LocationKey();
    InnerProp("LOCATION", "", value, false);
    InnersOfTwoAndRest(p, q, rest);
    TwoKeysFirst([p, q] + rest, "UID", "LOCATION");
  }

  /** So a second line in the uid stands in for the event's own location. */
  lemma UidOverridesLocation(ev: EventInput, first: string, value: string)
    requires ev.uid == first + CRLF + ("LOCATION" + "" + ":" + value) && LF !in first && LF !in value
    requires Printable(ev.(uid := first))
    ensures ParseIcsEvent(ICalString(ev)).Some?
    ensures ParseIcsEvent(ICalString(ev)).value.uid == first
    ensures ParseIcsEvent(ICalString(ev)).value.location == UnescapeIcs(value)
  {
    var rest := Props(ev)[1..];
    UidOfTwoLines(ev, first, "LOCATION", value);
    WithUid(ev, first);
    UidThenLocation(rest, first, value);
    RecordOfProps([Prop("UID", "", first, false), Prop("LOCATION", "", value, false)] + rest);
  }

  lemma OtherFirst<T>(five: seq<T>, five': seq<T>, x: T, o: seq<T>, a: seq<T>)
    requires five != [] && five' == [x] + five[1..]
    ensures five' + o + a == [x] + (five + o + a)[1..]
  {
  }

  lemma FiveWithUid(ev: EventInput, first: string)
    ensures FiveProps(ev.(uid := first)) == [Prop("UID", "", first, false)] + FiveProps(ev)[1..]
  {
  }

  lemma OptionalsWithUid(ev: EventInput, first: string)
    ensures OptionalProps(ev.(uid := first)) == OptionalProps(ev)
  {
  }

  lemma PropsWithUid(ev: EventInput, first: string, p: Prop)
    requires p == Prop("UID", "", first, false)
    ensures Props(ev.(uid := first)) == [p] + Props(ev)[1..]
  {
    FiveWithUid(ev, first);
    OptionalsWithUid(ev, first);
    OtherFirst(FiveProps(ev), FiveProps(ev.(uid := first)), p, OptionalProps(ev), Attendees(ev.attendees));
  }

  lemma WithUid(ev: EventInput, first: string)
    requires Printable(ev.(uid := first))
    ensures Inners([Prop("UID", "", first, false)] + Props(ev)[1..])
  {
    PropsAreInner(ev.(uid := first));
    PropsWithUid(ev, first, Prop("UID", "", first, false));
  }

  lemma InnersOfTwoAndRest(p: Prop, q: Prop, rest: seq<Prop>)
    requires Inners([p] + rest) && Inner(q)
    ensures Inners([p, q] + rest)
  {
    forall r | r in [p, q] + rest ensures Inner(r) {
      assert r == q || r in [p] + rest;
    }
  }

  predicate PlainAddress(a: string) {
    a != "" && forall c | c in a :: !StopsAddress(c)
  }

  lemma {:induction false} MailtoFromIsShorter(rest: string, value: string, size: nat)
    requires |rest| <= size + 6 && |value| == size + 7
    ensures |MailtoFrom(rest, value)| != size
  {
    if !(|rest| >= 8 && Upper(rest[..7]) == "MAILTO:" && !StopsAddress(rest[7])) && rest != [] {
      MailtoFromIsShorter(rest[1..], value, size);
    }
  }

  lemma AddressReadsBackIff(a: string)
    ensures Mailto("mailto:" + a) == a <==> PlainAddress(a)
  {
    var value := "mailto:" + a;
    assert value[..7] == "mailto:" && value[7..] == a;
    assert Upper("mailto:") == "MAILTO:";
    if a != "" && !StopsAddress(a[0]) {
      assert value[7] == a[0];
    } else {
      assert a != "" ==> value[7] == a[0] && a[0] in a;
      MailtoFromIsShorter(value[1..], value, |a|);
    }
  }

  // ---- An attendee of two lines ----

  /** The properties with attendee `first` followed by one more property. */
  function WithExtra(ev: EventInput, before: seq<string>, first: string, extra: Prop, after: seq<string>): seq<Prop> {
    (FiveProps(ev) + OptionalProps(ev) + Attendees(before)) + [AttendeeProp(first), extra] + Attendees(after)
  }

  lemma AttendeesParts(before: seq<string>, a: string, after: seq<string>)
    ensures Attendees(before + [a] + after) == Attendees(before) + [AttendeeProp(a)] + Attendees(after)
  {
  }

  lemma PropsParts(others: seq<Prop>, before: seq<Prop>, p: Prop, after: seq<Prop>)
    ensures others + (before + [p] + after) == (others + before) + [p] + after
  {
  }

  lemma RenderedAround(header: seq<Prop>, a: seq<Prop>, p: Prop, b: seq<Prop>, footer: seq<Prop>)
    ensures Rendered(header + (a + [p] + b) + footer) == (Rendered(header) + Rendered(a)) + [Render(p)] + (Rendered(b) + Rendered(footer))
  {
  }

  lemma RenderedAroundTwo(header: seq<Prop>, a: seq<Prop>, p: Prop, q: Prop, b: seq<Prop>, footer: seq<Prop>)
    ensures Rendered(header + (a + [p, q] + b) + footer)
         == (Rendered(header) + Rendered(a)) + [Render(p), Render(q)] + (Rendered(b) + Rendered(footer))
  {
  }

  lemma LineOfAttendee(first: string, second: string)
    ensures Text(AttendeeProp(first + CRLF + second)) == Text(AttendeeProp(first)) + CRLF + second
  {
    var k := "ATTENDEE" + ";RSVP=TRUE" + ":";
    assert k + ("mailto:" + (first + CRLF + second)) == k + ("mailto:" + first) + CRLF + second;
  }

  lemma PrintedAround(a: seq<Prop>, b: seq<Prop>, first: string, q: Prop)
    requires !q.folded && |Text(AttendeeProp(first + CRLF + Text(q)))| <= FOLD_WIDTH
    ensures Document(Rendered(HEADER + (a + [AttendeeProp(first + CRLF + Text(q))] + b) + FOOTER))
         == Document(Rendered(HEADER + (a + [AttendeeProp(first), q] + b) + FOOTER))
  {
    var whole := AttendeeProp(first + CRLF + Text(q));
    LineOfAttendee(first, Text(q));
    RenderedAround(HEADER, a, whole, b, FOOTER);
    RenderedAroundTwo(HEADER, a, AttendeeProp(first), q, b, FOOTER);
    assert Render(whole) == Text(AttendeeProp(first)) + CRLF + Text(q);
    OneLineIsTwo(Rendered(HEADER) + Rendered(a), Text(AttendeeProp(first)), Text(q), Rendered(b) + Rendered(FOOTER));
  }

  lemma InnersAround(a: seq<Prop>, p: Prop, q: Prop, b: seq<Prop>)
    requires Inners(a + [p] + b) && Inner(q)
    ensures Inners(a + [p, q] + b)
  {
    forall r | r in a + [p, q] + b ensures Inner(r) {
      assert r == q || r in a + [p] + b;
    }
  }

  lemma SameOthers(ev: EventInput, attendees: seq<string>)
    ensures FiveProps(ev.(attendees := attendees)) == FiveProps(ev) && OptionalProps(ev.(attendees := attendees)) == OptionalProps(ev)
  {
  }

  lemma PropsAround(ev: EventInput, before: seq<string>, a: string, after: seq<string>)
    requires ev.attendees == before + [a] + after
    ensures Props(ev) == (FiveProps(ev) + OptionalProps(ev) + Attendees(before)) + [AttendeeProp(a)] + Attendees(after)
  {
    AttendeesParts(before, a, after);
    PropsParts(FiveProps(ev) + OptionalProps(ev), Attendees(before), AttendeeProp(a), Attendees(after));
  }

  /** What is read of an attendee of two lines that is not folded: the attendee of the first, and the second as a
      property of its own. */
  lemma AttendeeOfTwoLines(ev: EventInput, before: seq<string>, first: string, q: Prop, after: seq<string>)
    requires ev.attendees == before + [first + CRLF + Text(q)] + after && Inner(q) && !q.folded
    requires |Text(AttendeeProp(first + CRLF + Text(q)))| <= FOLD_WIDTH
    requires Printable(ev.(attendees := before + [first] + after))
    ensures ParseIcsEvent(ICalString(ev)) == Some(EventOf(PutAll(map[], WithExtra(ev, before, first, q, after))))
  {
    var plain := ev.(attendees := before + [first] + after);
    PropsAround(ev, before, first + CRLF + Text(q), after);
    PropsAround(plain, before, first, after);
    SameOthers(ev, before + [first] + after);
    PropsAreInner(plain);
    var a := FiveProps(ev) + OptionalProps(ev) + Attendees(before);
    InnersAround(a, AttendeeProp(first), q, Attendees(after));
    PrintedAround(a, Attendees(after), first, q);
    RecordOfProps(WithExtra(ev, before, first, q, after));
  }

  /** Of the events with valid dates, the round trip is the identity exactly on those without a line feed in what
      is printed verbatim, with texts without backslash-n, plain addresses and years of four digits. */
  lemma RoundTripIsIdentityIff(ev: EventInput)
    requires ValidDates(ev)
    ensures ParseIcsEvent(ICalString(ev)) == Some(Faithful(ev)) <==>
      && OneLined(ev)
      && !HasBackslashN(ev.title) && !HasBackslashN(ev.description) && !HasBackslashN(ev.location)
      && (forall i | 0 <= i < |ev.attendees| :: PlainAddress(ev.attendees[i]))
      && ev.start.year < 10000 && ev.end.year < 10000
  {
    if OneLined(ev) {
      ParseUndoesPrint(ev);
      SlipIsIdentityIff(ev.title);
      SlipIsIdentityIff(ev.description);
      SlipIsIdentityIff(ev.location);
      DateRoundTripsIff(ev.start, ev.allDay);
      DateRoundTripsIff(ev.end, ev.allDay);
      AddressesReadBackIff(ev.attendees);
    } else if ParseIcsEvent(ICalString(ev)).Some? {
      ReadIsOneLined(ICalString(ev));
      UpperKeepsLf(ev.status);
    }
  }

  lemma SlipIsIdentityIff(t: string)
    ensures Slip(t) == t <==> !HasBackslashN(t)
  {
    UnescapeEscape(t);
    EscapeRoundTripsIff(t);
  }

  lemma AddressesReadBackIff(attendees: seq<string>)
    ensures ReadBack(attendees) == attendees <==> forall i | 0 <= i < |attendees| :: PlainAddress(attendees[i])
  {
    forall i | 0 <= i < |attendees|
      ensures ReadBack(attendees)[i] == attendees[i] <==> PlainAddress(attendees[i])
    {
      AddressReadsBackIff(attendees[i]);
    }
  }
}
