/** The copy-report action: the plain-text template the application writes to
    the clipboard for the current scenario. */
module AppReport {
  import opened Wrappers
  import opened Types
  import opened JsStrings

  /** The numbering that opens the line of step `i`: `Step ${i+1}: `. */
  function StepLabel(i: nat): (r: string)
    ensures |r| == |NatToDecimal(i + 1)| + 7
    ensures StartsWith(r, "Step ") && EndsWith(r, ": ")
    ensures r[5..|r| - 2] == NatToDecimal(i + 1)
  {
    var digits := NatToDecimal(i + 1);
    assert ("Step " + digits + ": ")[5..5 + |digits|] == digits;
    "Step " + digits + ": "
  }

  /** `Step ${i+1}: ${s.title} (${s.phase}) - ${s.description}`: the line
      opens with the one-based step number, continues with the title and the
      parenthesised phase, and closes with the description, with nothing
      else in between. */
  function StepLine(i: nat, s: Step): (r: string)
    ensures StartsWith(r, StepLabel(i))
    ensures OccursAt(r, Interpolate(s.title) + " (" + Interpolate(s.phase), |StepLabel(i)|)
    ensures EndsWith(r, ") - " + Interpolate(s.description))
    ensures |r| == |StepLabel(i)| + |Interpolate(s.title)| + 2 + |Interpolate(s.phase)| + 4 + |Interpolate(s.description)|
  {
    var middle := Interpolate(s.title) + " (" + Interpolate(s.phase);
    var head := StepLabel(i) + Interpolate(s.title) + " (" + Interpolate(s.phase);
    EndsWithConcat(head, ") - ", Interpolate(s.description));
    assert head + ") - " + Interpolate(s.description) == StepLabel(i) + middle + (") - " + Interpolate(s.description));
    OccursBetween(StepLabel(i), middle, ") - " + Interpolate(s.description));
    head + ") - " + Interpolate(s.description)
  }

  /** One line per step, in step order, each numbered by its position. */
  function StepLines(steps: seq<Step>): (r: seq<string>)
    ensures |r| == |steps|
    ensures forall i {:trigger StepLabel(i)} :: 0 <= i < |r| ==>
      && StartsWith(r[i], StepLabel(i))
      && OccursAt(r[i], Interpolate(steps[i].title) + " (" + Interpolate(steps[i].phase), |StepLabel(i)|)
      && EndsWith(r[i], ") - " + Interpolate(steps[i].description))
      && |r[i]| == |StepLabel(i)| + |Interpolate(steps[i].title)| + 2 + |Interpolate(steps[i].phase)| + 4
                   + |Interpolate(steps[i].description)|
  {
    seq(|steps|, i requires 0 <= i < |steps| => StepLine(i, steps[i]))
  }

  /** Where a line opens with the label of `a`, the text of `a` sits at
      position 5 and is followed by the colon. */
  lemma LabelAt(a: string, line: string)
    requires StartsWith(line, "Step " + a + ": ")
    ensures |line| > 5 + |a| && line[5 + |a|] == ':' && line[5..5 + |a|] == a
    ensures forall k :: 0 <= k < |a| ==> line[5 + k] == a[k]
  {
    var opening := "Step " + a + ": ";
    assert line[..|opening|] == opening;
    assert opening[5 + |a|] == ':' && opening[5..5 + |a|] == a;
  }

  /** Two labels made of digits cannot both open the same line unless they
      are equal: the colon after the shorter one would have to be a digit of
      the longer one. */
  lemma DigitLabelsAgree(a: string, b: string, line: string)
    requires forall k :: 0 <= k < |a| ==> IsDigit(a[k])
    requires forall k :: 0 <= k < |b| ==> IsDigit(b[k])
    requires StartsWith(line, "Step " + a + ": ") && StartsWith(line, "Step " + b + ": ")
    ensures a == b
  {
    LabelAt(a, line);
    LabelAt(b, line);
  }

  /** Different steps get different lines, whatever their text. */
  lemma StepLinesDistinct(steps: seq<Step>, i: nat, j: nat)
    requires i < |steps| && j < |steps| && i != j
    ensures StepLines(steps)[i] != StepLines(steps)[j]
  {
    var lines := StepLines(steps);
    assert StartsWith(lines[i], StepLabel(i)) && StartsWith(lines[j], StepLabel(j));
    if lines[i] == lines[j] {
      DigitLabelsAgree(NatToDecimal(i + 1), NatToDecimal(j + 1), lines[i]);
      DecimalInjective(i + 1, j + 1);
      assert false;
    }
  }

  const ReportEnd := "\n    "

  /** The report template, each line break written out on its own: it begins
      with a newline and ends with a newline and the four spaces of the
      closing line's indentation. */
  function Report(sc: Scenario): (r: string)
    ensures StartsWith(r, "\n" + "CYBERSCRIPT STORYBOARD: ")
    ensures EndsWith(r, ReportEnd)
  {
    var opening := "\n" + "CYBERSCRIPT STORYBOARD: ";
    var a1 := opening + Interpolate(sc.attackVector);
    var a2 := a1 + "\n" + "THREAT ACTOR: " + Interpolate(sc.threatActor);
    var a3 := a2 + "\n\n" + "OVERVIEW:\n" + Interpolate(sc.summary);
    var a4 := a3 + "\n\n" + "ATTACK STORYBOARD:\n" + Join(StepLines(sc.steps), "\n");
    var a5 := a4 + "\n\n" + "SAMPLE LOGS:\n" + Interpolate(sc.sampleLogs);
    var a6 := a5 + "\n\n" + "ATTACK FLOW DIAGRAM:\n" + Interpolate(sc.attackFlowDiagram);
    var a7 := a6 + "\n\n" + "MITIGATION & LESSONS:\n" + Interpolate(sc.mitigationLessons);
    assert a1[..|opening|] == opening;
    KeepsOpening(a1, opening, "\n", "THREAT ACTOR: ", Interpolate(sc.threatActor));
    KeepsOpening(a2, opening, "\n\n", "OVERVIEW:\n", Interpolate(sc.summary));
    KeepsOpening(a3, opening, "\n\n", "ATTACK STORYBOARD:\n", Join(StepLines(sc.steps), "\n"));
    KeepsOpening(a4, opening, "\n\n", "SAMPLE LOGS:\n", Interpolate(sc.sampleLogs));
    KeepsOpening(a5, opening, "\n\n", "ATTACK FLOW DIAGRAM:\n", Interpolate(sc.attackFlowDiagram));
    KeepsOpening(a6, opening, "\n\n", "MITIGATION & LESSONS:\n", Interpolate(sc.mitigationLessons));
    StartsWithAppend(a7, opening, ReportEnd);
    a7 + ReportEnd
  }

  /** Appending a section keeps the report's opening. */
  lemma KeepsOpening(before: string, opening: string, gap: string, header: string, value: string)
    requires StartsWith(before, opening)
    ensures StartsWith(before + gap + header + value, opening)
  {
    assert before + gap + header + value == before + (gap + header + value);
    StartsWithAppend(before, opening, gap + header + value);
  }

  /** Appending a section keeps an earlier occurrence in place. */
  lemma KeepsOccurrence(before: string, piece: string, at: nat, gap: string, header: string, value: string)
    requires OccursAt(before, piece, at)
    ensures OccursAt(before + gap + header + value, piece, at)
  {
    assert before + gap + header + value == before + (gap + header + value);
    OccursBefore(before, piece, at, gap + header + value);
  }

  /** The storyboard header is followed directly by the step lines joined
      with single newlines, in one unbroken block of the report. */
  lemma ReportStoryboard(sc: Scenario)
    ensures exists at :: OccursAt(Report(sc), "ATTACK STORYBOARD:\n" + Join(StepLines(sc.steps), "\n"), at)
  {
    var joined := Join(StepLines(sc.steps), "\n");
    var block := "ATTACK STORYBOARD:\n" + joined;
    var a1 := "\n" + "CYBERSCRIPT STORYBOARD: " + Interpolate(sc.attackVector);
    var a2 := a1 + "\n" + "THREAT ACTOR: " + Interpolate(sc.threatActor);
    var a3 := a2 + "\n\n" + "OVERVIEW:\n" + Interpolate(sc.summary);
    var a4 := a3 + "\n\n" + "ATTACK STORYBOARD:\n" + joined;
    var a5 := a4 + "\n\n" + "SAMPLE LOGS:\n" + Interpolate(sc.sampleLogs);
    var a6 := a5 + "\n\n" + "ATTACK FLOW DIAGRAM:\n" + Interpolate(sc.attackFlowDiagram);
    var a7 := a6 + "\n\n" + "MITIGATION & LESSONS:\n" + Interpolate(sc.mitigationLessons);
    var at := |a3| + 2;
    assert a4 == a3 + "\n\n" + block + "";
    OccursBetween(a3 + "\n\n", block, "");
    KeepsOccurrence(a4, block, at, "\n\n", "SAMPLE LOGS:\n", Interpolate(sc.sampleLogs));
    KeepsOccurrence(a5, block, at, "\n\n", "ATTACK FLOW DIAGRAM:\n", Interpolate(sc.attackFlowDiagram));
    KeepsOccurrence(a6, block, at, "\n\n", "MITIGATION & LESSONS:\n", Interpolate(sc.mitigationLessons));
    OccursBefore(a7, block, at, ReportEnd);
    assert Report(sc) == a7 + ReportEnd;
  }

  /** The headed sections and the step lines, in the order the report must
      present them. */
  function ReportPieces(sc: Scenario): (r: seq<string>) {
    [ "CYBERSCRIPT STORYBOARD: " + Interpolate(sc.attackVector) ]
      + [ "THREAT ACTOR: " + Interpolate(sc.threatActor) ]
      + [ "OVERVIEW:\n" + Interpolate(sc.summary) ]
      + [ "ATTACK STORYBOARD:\n" ] + StepLines(sc.steps)
      + [ "SAMPLE LOGS:\n" + Interpolate(sc.sampleLogs) ]
      + [ "ATTACK FLOW DIAGRAM:\n" + Interpolate(sc.attackFlowDiagram) ]
      + [ "MITIGATION & LESSONS:\n" + Interpolate(sc.mitigationLessons) ]
  }

  /** The report holds the attack vector, then the threat actor, then the
      summary, then every step line in step order, then the sample logs, the
      flow diagram and the mitigation text, each right after its header. */
  lemma ReportInOrder(sc: Scenario)
    ensures InOrder(Report(sc), ReportPieces(sc))
  {
    var lines := StepLines(sc.steps);
    var joined := Join(lines, "\n");
    var av, ta, sum := Interpolate(sc.attackVector), Interpolate(sc.threatActor), Interpolate(sc.summary);
    var logs, flow, lessons := Interpolate(sc.sampleLogs), Interpolate(sc.attackFlowDiagram), Interpolate(sc.mitigationLessons);

    var a1 := "\n" + "CYBERSCRIPT STORYBOARD: " + av;
    FirstSection("\n", "CYBERSCRIPT STORYBOARD: ", av);
    var p1 := ["CYBERSCRIPT STORYBOARD: " + av];
    var a2 := a1 + "\n" + "THREAT ACTOR: " + ta;
    SectionAfter(a1, "\n", "THREAT ACTOR: ", ta, p1);
    var p2 := p1 + ["THREAT ACTOR: " + ta];
    var a3 := a2 + "\n\n" + "OVERVIEW:\n" + sum;
    SectionAfter(a2, "\n\n", "OVERVIEW:\n", sum, p2);
    var p3 := p2 + ["OVERVIEW:\n" + sum];
    var a4 := a3 + "\n\n" + "ATTACK STORYBOARD:\n" + joined;
    JoinInOrder(lines, "\n");
    StepsAfter(a3, "\n\n", "ATTACK STORYBOARD:\n", joined, lines, p3);
    var p4 := p3 + ["ATTACK STORYBOARD:\n"] + lines;
    var a5 := a4 + "\n\n" + "SAMPLE LOGS:\n" + logs;
    SectionAfter(a4, "\n\n", "SAMPLE LOGS:\n", logs, p4);
    var p5 := p4 + ["SAMPLE LOGS:\n" + logs];
    var a6 := a5 + "\n\n" + "ATTACK FLOW DIAGRAM:\n" + flow;
    SectionAfter(a5, "\n\n", "ATTACK FLOW DIAGRAM:\n", flow, p5);
    var p6 := p5 + ["ATTACK FLOW DIAGRAM:\n" + flow];
    var a7 := a6 + "\n\n" + "MITIGATION & LESSONS:\n" + lessons;
    SectionAfter(a6, "\n\n", "MITIGATION & LESSONS:\n", lessons, p6);
    var p7 := p6 + ["MITIGATION & LESSONS:\n" + lessons];
    InOrderAfterText(a7, ReportEnd, p7);

    assert Report(sc) == a7 + ReportEnd;
    assert ReportPieces(sc) == p7;
  }

  lemma FirstSection(gap: string, header: string, value: string)
    ensures InOrder(gap + header + value, [header + value])
  {
    InOrderCons(gap, header + value, "", []);
    assert gap + (header + value) + "" == gap + header + value;
    assert [header + value] + [] == [header + value];
  }

  /** Text holding ordered pieces, then a gap, a header and its value. */
  lemma SectionAfter(before: string, gap: string, header: string, value: string, pieces: seq<string>)
    requires InOrder(before, pieces)
    ensures InOrder(before + gap + header + value, pieces + [header + value])
  {
    FirstSection(gap, header, value);
    InOrderAppend(before, gap + header + value, pieces, [header + value]);
    assert before + (gap + header + value) == before + gap + header + value;
  }

  /** Text holding ordered pieces, then a gap, the storyboard header and the
      joined step lines. */
  lemma StepsAfter(before: string, gap: string, header: string, joined: string, lines: seq<string>, pieces: seq<string>)
    requires InOrder(before, pieces) && InOrder(joined, lines)
    ensures InOrder(before + gap + header + joined, pieces + [header] + lines)
  {
    InOrderCons(gap, header, joined, lines);
    InOrderAppend(before, gap + header + joined, pieces, [header] + lines);
    assert before + (gap + header + joined) == before + gap + header + joined;
    assert pieces + ([header] + lines) == pieces + [header] + lines;
  }


  /** Trailing text keeps ordered pieces in order. */
  lemma InOrderAfterText(before: string, after: string, pieces: seq<string>)
    requires InOrder(before, pieces)
    ensures InOrder(before + after, pieces)
  {
    InOrderAppend(before, after, pieces, []);
    assert pieces + [] == pieces;
  }

  /** `copyToClipboard`: nothing is written when there is no current scenario;
      otherwise the written text is the report: it opens with the storyboard
      title and closes with the final indentation, holds its sections in
      order, and carries the step lines joined by newlines right after the
      storyboard header. */
  function CopyToClipboard(cur: Option<Scenario>): (r: Option<string>)
    ensures r.None? <==> cur.None?
    ensures r.Some? ==>
      && StartsWith(r.value, "\n" + "CYBERSCRIPT STORYBOARD: ")
      && EndsWith(r.value, ReportEnd)
    ensures r.Some? ==> InOrder(r.value, ReportPieces(cur.value))
    ensures r.Some? ==>
      exists at :: OccursAt(r.value, "ATTACK STORYBOARD:\n" + Join(StepLines(cur.value.steps), "\n"), at)
  {
    match cur
    case None => None
    case Some(sc) =>
      ReportInOrder(sc);
      ReportStoryboard(sc);
      Some(Report(sc))
  }
}
