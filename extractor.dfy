/**
 * Entry extractor: the first half of `mparser` (and of the Flask route). The
 * pasted timesheet text is cut into lines, each line is cleaned of tabs and
 * newlines, noise lines are skipped, and the rest are collected in a buffer
 * (`timeEntry`) until a line containing "miles" closes the group. A closed
 * group becomes an entry only if it holds exactly seven lines; the buffer is
 * emptied either way.
 */
module Extractor {
  import opened Strings

  /** One raw record, its seven fields in the order of the export. */
  datatype Entry = Entry(branch: string, timeIn: string, dateIn: string, timeOut: string,
                         dateOut: string, duration: string, length: string)
  {
    function Fields(): seq<string>
    {
      [branch, timeIn, dateIn, timeOut, dateOut, duration, length]
    }
  }

  /** The token that marks the last line of every record. */
  const Marker := "miles"

  /** The state of the extraction loop: the pending group and the entries emitted so far. */
  datatype Scan = Scan(buffer: seq<string>, entries: seq<Entry>)

  lemma ContainsChar(s: string, c: char)
    ensures Contains(s, [c]) <==> c in s
  {
    if c in s {
      var i :| 0 <= i < |s| && s[i] == c;
      assert OccursAt(s, [c], i);
    }
    if Contains(s, [c]) {
      var i: nat :| i <= |s| && OccursAt(s, [c], i);
      assert s[i..i + 1][0] == s[i];
    }
  }

  /**
   * The input's lines: split on CRLF when the text holds one anywhere, and on
   * LF otherwise. Either way the lines glued back with the chosen separator
   * give the text again, so a stray carriage return in LF mode stays in its line.
   */
  function SplitLines(text: string): (lines: seq<string>)
    ensures Contains(text, "\r\n") ==>
      Join(lines, "\r\n") == text && forall k :: 0 <= k < |lines| ==> !Contains(lines[k], "\r\n")
    ensures !Contains(text, "\r\n") ==>
      Join(lines, "\n") == text && forall k :: 0 <= k < |lines| ==> '\n' !in lines[k]
  {
    if Contains(text, "\r\n") then Split(text, "\r\n")
    else
      var lines := Split(text, "\n");
      forall k | 0 <= k < |lines| ensures '\n' !in lines[k] {
        ContainsChar(lines[k], '\n');
      }
      lines
  }

  /** `line.replace('\t', '').replace('\n', '')` */
  function CleanLine(line: string): (r: string)
    ensures '\t' !in r && '\n' !in r
    ensures forall c :: c in r <==> c in line && c != '\t' && c != '\n'
  {
    Remove(Remove(line, '\t'), '\n')
  }

  /** Lines the export pads records with: a time-zone token, a blank line, a lone hyphen. */
  predicate IsNoise(line: string)
  {
    line == "CST" || line == "" || line == "-"
  }

  /** What a field of an emitted entry can be: a cleaned line that is not noise. */
  predicate GoodField(f: string)
  {
    !IsNoise(f) && '\t' !in f && '\n' !in f
  }

  /** Seven good fields, of which the last and only the last contains the marker. */
  predicate WellFormed(e: Entry)
  {
    forall k :: 0 <= k < 7 ==> GoodField(e.Fields()[k]) && (Contains(e.Fields()[k], Marker) <==> k == 6)
  }

  function ToEntry(group: seq<string>): (e: Entry)
    requires |group| == 7
    ensures e.Fields() == group
  {
    Entry(group[0], group[1], group[2], group[3], group[4], group[5], group[6])
  }

  /** One iteration of the extraction loop on one raw line. */
  function Step(st: Scan, raw: string): Scan
  {
    var line := CleanLine(raw);
    if IsNoise(line) then st
    else if Contains(line, Marker) then
      var group := st.buffer + [line];
      if |group| == 7 then Scan([], st.entries + [ToEntry(group)]) else Scan([], st.entries)
    else Scan(st.buffer + [line], st.entries)
  }

  /** The extraction loop as a left fold of `Step` over the lines. */
  function Run(lines: seq<string>): Scan
  {
    if lines == [] then Scan([], [])
    else Step(Run(lines[..|lines| - 1]), lines[|lines| - 1])
  }

  /** Run on one more line is one more step. */
  lemma RunStep(lines: seq<string>, i: nat)
    requires i < |lines|
    ensures Run(lines[..i + 1]) == Step(Run(lines[..i]), lines[i])
  {
    assert lines[..i + 1][..i] == lines[..i];
  }

  /** A noise line changes nothing, wherever it stands in the input. */
  lemma {:induction false} NoiseLinesAreIgnored(before: seq<string>, noise: string, after: seq<string>)
    requires IsNoise(CleanLine(noise))
    ensures Run(before + [noise] + after) == Run(before + after)
  {
    if after == [] {
      assert before + [noise] + after == before + [noise];
      assert before + after == before;
      NoiseStep(before, noise);
    } else {
      var init, last := after[..|after| - 1], after[|after| - 1];
      assert before + [noise] + init + [last] == before + [noise] + after;
      assert before + init + [last] == before + after;
      NoiseLinesAreIgnored(before, noise, init);
      SameStep(before + [noise] + init, before + init, last);
    }
  }

  /** Inputs that reach the same state stay in step when one more line is read. */
  lemma SameStep(xs: seq<string>, ys: seq<string>, line: string)
    requires Run(xs) == Run(ys)
    ensures Run(xs + [line]) == Run(ys + [line])
  {
    var xl, yl := xs + [line], ys + [line];
    assert xl[..|xs| + 1] == xl && xl[..|xs|] == xs && xl[|xs|] == line;
    assert yl[..|ys| + 1] == yl && yl[..|ys|] == ys && yl[|ys|] == line;
    RunStep(xl, |xs|);
    RunStep(yl, |ys|);
  }

  /** A noise line read last leaves the state as it was. */
  lemma NoiseStep(before: seq<string>, noise: string)
    requires IsNoise(CleanLine(noise))
    ensures Run(before + [noise]) == Run(before)
  {
    var with := before + [noise];
    assert with[..|before| + 1] == with && with[..|before|] == before && with[|before|] == noise;
    RunStep(with, |before|);
  }

  /** The entries the extractor emits for a whole input text. */
  function Extract(text: string): seq<Entry>
  {
    Run(SplitLines(text)).entries
  }

  /** The cleaned lines the loop does not skip, in input order. */
  function Kept(lines: seq<string>): seq<string>
  {
    if lines == [] then []
    else
      var line := CleanLine(lines[|lines| - 1]);
      Kept(lines[..|lines| - 1]) + (if IsNoise(line) then [] else [line])
  }

  /** All fields of all entries, entry after entry. */
  function Flatten(entries: seq<Entry>): seq<string>
  {
    if entries == [] then [] else Flatten(entries[..|entries| - 1]) + entries[|entries| - 1].Fields()
  }

  /** The invariant of the extraction loop, after any prefix of the lines. */
  predicate ScanInvariant(st: Scan, lines: seq<string>)
  {
    && (forall k :: 0 <= k < |st.buffer| ==> GoodField(st.buffer[k]) && !Contains(st.buffer[k], Marker))
    && (forall k :: 0 <= k < |st.entries| ==> WellFormed(st.entries[k]))
    && IsSubsequence(Flatten(st.entries) + st.buffer, Kept(lines))
  }

  /**
   * Every state the loop reaches keeps the invariant: the pending lines are good
   * and carry no marker, the emitted entries are well formed, and the emitted
   * fields followed by the pending lines are a subsequence of the kept lines.
   */
  lemma {:induction false} RunKeepsInvariant(lines: seq<string>)
    ensures ScanInvariant(Run(lines), lines)
    decreases |lines|
  {
    if lines != [] {
      var prefix := lines[..|lines| - 1];
      RunKeepsInvariant(prefix);
      StepKeepsInvariant(Run(prefix), lines);
    }
  }

  /** One step of the loop keeps the invariant, the last line being the one read. */
  lemma StepKeepsInvariant(st: Scan, lines: seq<string>)
    requires lines != [] && ScanInvariant(st, lines[..|lines| - 1])
    ensures ScanInvariant(Step(st, lines[|lines| - 1]), lines)
  {
    var prefix, raw := lines[..|lines| - 1], lines[|lines| - 1];
    var line := CleanLine(raw);
    var flat := Flatten(st.entries);
    if !IsNoise(line) {
      assert Kept(lines) == Kept(prefix) + [line];
      SubsequenceAppend(flat + st.buffer, Kept(prefix), line);
      assert flat + st.buffer + [line] == flat + (st.buffer + [line]);
      if Contains(line, Marker) {
        var group := st.buffer + [line];
        if |group| == 7 {
          GroupIsWellFormed(st.buffer, line);
          var e := ToEntry(group);
          assert Flatten(st.entries + [e]) == flat + group;
          assert Flatten(st.entries + [e]) + [] == flat + group;
        } else {
          SubsequencePrefix(flat, group, Kept(lines));
          assert flat + [] == flat;
        }
      }
    } else {
      assert Kept(lines) == Kept(prefix) + [];
      assert Kept(prefix) + [] == Kept(prefix);
    }
  }

  /** Six pending lines without the marker and a closing line with it make a well-formed entry. */
  lemma GroupIsWellFormed(buffer: seq<string>, line: string)
    requires |buffer| == 6
    requires forall k :: 0 <= k < 6 ==> GoodField(buffer[k]) && !Contains(buffer[k], Marker)
    requires GoodField(line) && Contains(line, Marker)
    ensures WellFormed(ToEntry(buffer + [line]))
  {
    var fields := ToEntry(buffer + [line]).Fields();
    assert forall k :: 0 <= k < 6 ==> fields[k] == buffer[k];
  }

  /** Every emitted entry has seven good fields, and only its last field contains "miles". */
  lemma ExtractedEntriesAreWellFormed(text: string)
    ensures forall e :: e in Extract(text) ==> WellFormed(e)
  {
    RunKeepsInvariant(SplitLines(text));
  }

  /**
   * Entries come out in input order: their fields, laid end to end, are a
   * subsequence of the cleaned, non-noise lines of the input.
   */
  lemma ExtractedFieldsFollowInput(text: string)
    ensures IsSubsequence(Flatten(Extract(text)), Kept(SplitLines(text)))
  {
    var st := Run(SplitLines(text));
    RunKeepsInvariant(SplitLines(text));
    SubsequencePrefix(Flatten(st.entries), st.buffer, Kept(SplitLines(text)));
  }

  /**
   * A line containing "miles" always empties the buffer, and it emits an entry
   * exactly when six lines were pending; a group of any other size is dropped.
   */
  lemma MarkerClosesGroup(lines: seq<string>, raw: string)
    requires !IsNoise(CleanLine(raw)) && Contains(CleanLine(raw), Marker)
    ensures Run(lines + [raw]).buffer == []
    ensures |Run(lines).buffer| == 6 ==>
      Run(lines + [raw]).entries == Run(lines).entries + [ToEntry(Run(lines).buffer + [CleanLine(raw)])]
    ensures |Run(lines).buffer| != 6 ==> Run(lines + [raw]).entries == Run(lines).entries
  {
    assert (lines + [raw])[..|lines|] == lines;
  }

  /** Without any cleaned line containing "miles" nothing is emitted and every kept line stays pending. */
  lemma {:induction false} NoMarkerNoEntries(lines: seq<string>)
    requires forall k :: 0 <= k < |lines| ==> !Contains(CleanLine(lines[k]), Marker)
    ensures Run(lines).entries == []
    ensures Run(lines).buffer == Kept(lines)
    decreases |lines|
  {
    if lines != [] {
      NoMarkerNoEntries(lines[..|lines| - 1]);
    }
  }

  lemma {:induction false} RunAfterEmptyBuffer(a: seq<string>, b: seq<string>)
    requires Run(a).buffer == []
    ensures Run(a + b) == Scan(Run(b).buffer, Run(a).entries + Run(b).entries)
    decreases |b|
  {
    if b == [] {
      assert a + b == a;
    } else {
      var b' := b[..|b| - 1];
      assert (a + b)[..|a + b| - 1] == a + b';
      assert (a + b)[|a + b| - 1] == b[|b| - 1];
      RunAfterEmptyBuffer(a, b');
    }
  }

  /**
   * Groups never reach back across a line that closed a group: once the buffer
   * is empty, what follows is extracted as if the input started there.
   */
  lemma NoRetryAcrossMarker(a: seq<string>, b: seq<string>)
    requires Run(a).buffer == []
    ensures Run(a + b).entries == Run(a).entries + Run(b).entries
  {
    RunAfterEmptyBuffer(a, b);
  }

  /**
   * The extraction loop of `mparser`: `timeEntry` is the buffer, `entries` the
   * rows appended to the data frame.
   */
  method ExtractEntries(text: string) returns (entries: seq<Entry>)
    ensures entries == Extract(text)
    ensures forall e :: e in entries ==> WellFormed(e)
  {
    var lines := SplitLines(text);
    var timeEntry: seq<string> := [];
    entries := [];
    var i := 0;
    while i < |lines|
      invariant 0 <= i <= |lines|
      invariant Run(lines[..i]) == Scan(timeEntry, entries)
    {
      var line := CleanLine(lines[i]);
      RunStep(lines, i);
      if IsNoise(line) {
        i := i + 1;
        continue;
      }
      if Contains(line, Marker) {
        timeEntry := timeEntry + [line];
        if |timeEntry| == 7 {
          entries := entries + [ToEntry(timeEntry)];
          timeEntry := [];
        } else {
          timeEntry := [];
        }
      } else {
        timeEntry := timeEntry + [line];
      }
      i := i + 1;
    }
    assert lines[..|lines|] == lines;
    ExtractedEntriesAreWellFormed(text);
  }
}
