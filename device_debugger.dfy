/** The device debugger's checks: the record gathered for one detected
    device with the issues and warnings it raises, the word wrapping used to
    lay those messages out, and the second opinion on a smartphone
    classification. */
module DeviceDebugger {
  import opened Raster
  import opened Segmentation
  import opened JsNumber

  // ---------------------------------------------------------------------
  // Shape of a region

  /** `region.rect?.wPct || 0`: the width share, 0 without a rectangle. */
  function RectWidth(rect: Option<ScreenRectPct>): real {
    if rect.Some? then rect.value.wPct else 0.0
  }

  function RectHeight(rect: Option<ScreenRectPct>): real {
    if rect.Some? then rect.value.hPct else 0.0
  }

  /** The aspect ratio width / height, or 0 when the width is not positive;
      a zero height under a positive width makes it +Infinity. */
  function AspectRatio(width: real, height: real): (a: Num)
    ensures width <= 0.0 ==> a == Finite(0.0)
    ensures width > 0.0 && height == 0.0 ==> a == PosInf
    ensures width > 0.0 && height > 0.0 ==> a.Finite? && a.value > 0.0 && a.value * height == width
  {
    if width > 0.0 then Quotient(width, height) else Finite(0.0)
  }

  /** Elongated, as a phone is: aspect ratio below 0.6 or above 1.7. */
  predicate Elongated(aspect: Num) {
    Lt(aspect, 0.6) || Gt(aspect, 1.7)
  }

  /** How far from square a ratio is: the ratio itself from 1 up, its
      reciprocal below 1 (so a zero ratio gives +Infinity). */
  function ElongationRatio(aspect: Num): (r: Num)
    ensures aspect.Finite? && aspect.value >= 1.0 ==> r == aspect
    ensures aspect.Finite? && 0.0 < aspect.value < 1.0 ==> r.Finite? && r.value > 1.0 && r.value * aspect.value == 1.0
    ensures aspect == Finite(0.0) ==> r == PosInf
  {
    if Lt(aspect, 1.0) then
      match aspect
      case Finite(v) => Quotient(1.0, v)
      case _ => Finite(0.0)
    else aspect
  }

  /** A region with no width counts as elongated: its ratio is 0, and its
      elongation infinite. */
  lemma MissingWidthIsElongated(height: real)
    ensures AspectRatio(0.0, height) == Finite(0.0)
    ensures Elongated(AspectRatio(0.0, height))
    ensures ElongationRatio(AspectRatio(0.0, height)) == PosInf
  {
  }

  /** For a real rectangle the elongation is at least 1, and it is the same
      for the shape and the shape turned by a quarter turn. */
  lemma ElongationOfTurnedShape(width: real, height: real)
    requires width > 0.0 && height > 0.0
    ensures ElongationRatio(AspectRatio(width, height)).Finite?
    ensures ElongationRatio(AspectRatio(width, height)).value >= 1.0
    ensures ElongationRatio(AspectRatio(width, height)) == ElongationRatio(AspectRatio(height, width))
  {
    var a, b := width / height, height / width;
    assert a * b == 1.0 by { assert a * height == width && b * width == height; }
    if a < 1.0 {
      assert b > 1.0;
      ReciprocalOf(a, b);
    } else if a > 1.0 {
      assert b < 1.0;
      ReciprocalOf(b, a);
    } else {
      assert b == 1.0;
    }
  }

  /** The reciprocal of a is the b with a * b == 1. */
  lemma ReciprocalOf(a: real, b: real)
    requires a > 0.0 && a * b == 1.0
    ensures 1.0 / a == b
  {
  }

  /** The elongation test is not symmetric: 0.6 and 1.7 are not
      reciprocals, so a 59 × 100 region is elongated while the same region
      turned, 100 × 59, is not. */
  lemma ElongationTestAsymmetric()
    ensures Elongated(AspectRatio(59.0, 100.0))
    ensures !Elongated(AspectRatio(100.0, 59.0))
  {
    assert AspectRatio(100.0, 59.0) == Finite(100.0 / 59.0);
    assert 100.0 / 59.0 < 1.7 by { RatioCross(100.0, 59.0, 1.7); }
  }

  // ---------------------------------------------------------------------
  // The debug record

  /** The detector's report, as far as the record uses it. */
  datatype DetectionResult = DetectionResult(detectionMethod: string, confidence: real,
                                             hasKeyboard: bool, hasNotch: bool, hasMetalSide: bool,
                                             hasMaskData: bool, analyzedArea: string, expandedHeight: Option<real>)

  datatype MaskDataInfo = MaskDataInfo(hasData: bool, analyzedArea: string, expandedHeight: Option<real>)

  /** A problem in the classification of a device. */
  datatype Issue = IndexMismatch(arrayIndex: int, deviceIndex: int)
                 | NotElongatedSmartphone(aspect: Num)
                 | SmartphoneWithKeyboard

  datatype Warning = LaptopWithoutKeyboard

  /** The order the checks run in. */
  function IssueRank(i: Issue): nat {
    match i
    case IndexMismatch(_, _) => 0
    case NotElongatedSmartphone(_) => 1
    case SmartphoneWithKeyboard => 2
  }

  datatype DebugInfo = DebugInfo(arrayIndex: int, deviceIndex: int, displayNumber: int,
                                 deviceType: string, detectionMethod: string, confidence: real,
                                 hasKeyboard: bool, hasNotch: bool, hasMetalSide: bool,
                                 aspectRatio: Num, width: real, height: real,
                                 isElongated: bool, elongationRatio: Num,
                                 maskDataInfo: MaskDataInfo,
                                 issues: seq<Issue>, warnings: seq<Warning>)

  /** `x || fallback` on a string: the empty string is falsy. */
  function OrElse(s: string, fallback: string): string {
    if s == "" then fallback else s
  }

  /** issues holds an index mismatch exactly when the indices differ, a
      non-elongated smartphone exactly when a smartphone's aspect ratio is
      not elongated, a smartphone with a keyboard exactly when one has a
      keyboard, nothing else, and these in that order. */
  ghost predicate RaisesExactly(issues: seq<Issue>, arrayIndex: int, deviceIndex: int, deviceType: string,
                                aspect: Num, hasKeyboard: bool)
  {
    && (IndexMismatch(arrayIndex, deviceIndex) in issues <==> arrayIndex != deviceIndex)
    && (NotElongatedSmartphone(aspect) in issues <==> deviceType == "smartphone" && !Elongated(aspect))
    && (SmartphoneWithKeyboard in issues <==> deviceType == "smartphone" && hasKeyboard)
    && (forall k :: 0 <= k < |issues| ==>
          issues[k] in {IndexMismatch(arrayIndex, deviceIndex), NotElongatedSmartphone(aspect), SmartphoneWithKeyboard})
    && (forall k, l :: 0 <= k < l < |issues| ==> IssueRank(issues[k]) < IssueRank(issues[l]))
  }

  /** The issue checks of `collectDebugInfo`, run in order. */
  method CollectIssues(arrayIndex: int, deviceIndex: int, deviceType: string, aspect: Num, hasKeyboard: bool)
      returns (issues: seq<Issue>)
    ensures RaisesExactly(issues, arrayIndex, deviceIndex, deviceType, aspect, hasKeyboard)
    ensures |issues| <= 3
  {
    issues := [];
    if arrayIndex != deviceIndex {
      issues := issues + [IndexMismatch(arrayIndex, deviceIndex)];
    }
    if deviceType == "smartphone" && !Elongated(aspect) {
      issues := issues + [NotElongatedSmartphone(aspect)];
    }
    if deviceType == "smartphone" && hasKeyboard {
      issues := issues + [SmartphoneWithKeyboard];
    }
  }

  /** A device raises no issue exactly when its indices agree and, if it
      is called a smartphone, it is elongated and has no keyboard; for a
      smartphone whose indices agree that is exactly when the smartphone
      validation below reports a confidence of 70 or more, whatever the
      notch and the size. */
  lemma IssuesAgreeWithValidation(issues: seq<Issue>, arrayIndex: int, deviceIndex: int, deviceType: string,
                                                      aspect: Num, hasKeyboard: bool, hasNotch: bool, tooSmall: bool)
    requires RaisesExactly(issues, arrayIndex, deviceIndex, deviceType, aspect, hasKeyboard)
    ensures issues == [] <==> arrayIndex == deviceIndex && (deviceType == "smartphone" ==> Elongated(aspect) && !hasKeyboard)
    ensures deviceType == "smartphone" && arrayIndex == deviceIndex ==>
      (issues == [] <==> ClampPercent(SmartphoneScore(Elongated(aspect), hasKeyboard, hasNotch, tooSmall)) >= 70)
  {
    if issues != [] {
      assert issues[0] in {IndexMismatch(arrayIndex, deviceIndex), NotElongatedSmartphone(aspect), SmartphoneWithKeyboard};
    }
    ScoreSeparatesVerdicts(Elongated(aspect), hasKeyboard, hasNotch, tooSmall);
  }

  /** `collectDebugInfo`: the region's shape, the detector's flags (false,
      0 or "unknown" without a report), the user-facing number one above
      the index, and the issues raised for an index mismatch, a smartphone
      that is not elongated and a smartphone with a keyboard, in that
      order, and the one warning for a laptop without a keyboard. */
  method CollectDebugInfo(arrayIndex: int, deviceIndex: int, rect: Option<ScreenRectPct>,
                          deviceType: string, detection: Option<DetectionResult>) returns (info: DebugInfo)
    ensures info.arrayIndex == arrayIndex && info.deviceIndex == deviceIndex
    ensures info.displayNumber == deviceIndex + 1
    ensures info.deviceType == deviceType
    ensures info.width == RectWidth(rect) && info.height == RectHeight(rect)
    ensures info.aspectRatio == AspectRatio(info.width, info.height)
    ensures info.isElongated == Elongated(info.aspectRatio)
    ensures info.elongationRatio == ElongationRatio(info.aspectRatio)
    ensures info.hasKeyboard == (detection.Some? && detection.value.hasKeyboard)
    ensures info.hasNotch == (detection.Some? && detection.value.hasNotch)
    ensures info.hasMetalSide == (detection.Some? && detection.value.hasMetalSide)
    ensures info.detectionMethod == if detection.Some? then OrElse(detection.value.detectionMethod, "unknown") else "unknown"
    ensures info.confidence == if detection.Some? then detection.value.confidence else 0.0
    ensures info.maskDataInfo.hasData == (detection.Some? && detection.value.hasMaskData)
    ensures RaisesExactly(info.issues, arrayIndex, deviceIndex, deviceType, info.aspectRatio, info.hasKeyboard)
    ensures info.warnings == if deviceType == "laptop" && !info.hasKeyboard then [LaptopWithoutKeyboard] else []
  {
    var width := RectWidth(rect);
    var height := RectHeight(rect);
    var aspectRatio := AspectRatio(width, height);
    var isElongated := Elongated(aspectRatio);
    var elongationRatio := ElongationRatio(aspectRatio);
    var hasKeyboard := detection.Some? && detection.value.hasKeyboard;

    var issues := CollectIssues(arrayIndex, deviceIndex, deviceType, aspectRatio, hasKeyboard);
    var warnings: seq<Warning> := [];
    if deviceType == "laptop" && !hasKeyboard {
      warnings := warnings + [LaptopWithoutKeyboard];
    }

    var maskDataInfo := if detection.Some? then
        MaskDataInfo(detection.value.hasMaskData, OrElse(detection.value.analyzedArea, "unknown"), detection.value.expandedHeight)
      else MaskDataInfo(false, "unknown", None);
    info := DebugInfo(arrayIndex, deviceIndex, deviceIndex + 1, deviceType,
                      if detection.Some? then OrElse(detection.value.detectionMethod, "unknown") else "unknown",
                      if detection.Some? then detection.value.confidence else 0.0,
                      hasKeyboard, detection.Some? && detection.value.hasNotch,
                      detection.Some? && detection.value.hasMetalSide,
                      aspectRatio, width, height, isElongated, elongationRatio,
                      maskDataInfo, issues, warnings);
  }

  // ---------------------------------------------------------------------
  // Word wrapping

  /** The first space of s, which must have one. */
  function FirstSpace(s: string): (i: nat)
    requires ' ' in s
    ensures i < |s| && s[i] == ' ' && ' ' !in s[..i]
  {
    if s[0] == ' ' then 0 else 1 + FirstSpace(s[1..])
  }

  /** `s.split(' ')`: the pieces between single spaces, so an empty string
      and each doubled space give an empty piece. */
  function Split(s: string): (words: seq<string>)
    ensures |words| >= 1
    ensures forall k :: 0 <= k < |words| ==> ' ' !in words[k]
    decreases |s|
  {
    if ' ' !in s then [s]
    else
      var i := FirstSpace(s);
      [s[..i]] + Split(s[i + 1..])
  }

  /** `lines.join(' ')`. */
  function Join(lines: seq<string>): string {
    if |lines| == 0 then ""
    else if |lines| == 1 then lines[0]
    else lines[0] + " " + Join(lines[1..])
  }

  /** Joining what was split gives back the text. */
  lemma {:induction false} JoinSplit(s: string)
    ensures Join(Split(s)) == s
    decreases |s|
  {
    if ' ' in s {
      var i := FirstSpace(s);
      var rest := Split(s[i + 1..]);
      JoinSplit(s[i + 1..]);
      assert Split(s) == [s[..i]] + rest;
      assert ([s[..i]] + rest)[1..] == rest;
      assert Join(Split(s)) == s[..i] + " " + Join(rest);
      assert s == s[..i] + " " + s[i + 1..];
    }
  }

  /** Appending a line to a non-empty list joins it after one more space. */
  lemma {:induction false} JoinSnoc(lines: seq<string>, last: string)
    requires |lines| > 0
    ensures Join(lines + [last]) == Join(lines) + " " + last
    decreases |lines|
  {
    if |lines| > 1 {
      JoinSnoc(lines[1..], last);
      assert (lines + [last])[1..] == lines[1..] + [last];
    }
  }

  /** The lines so far with the line being built, if it has anything. */
  function Flush(lines: seq<string>, current: string): seq<string> {
    if current == "" then lines else lines + [current]
  }

  /** No line (or word) is longer than width. */
  predicate WithinWidth(lines: seq<string>, width: int) {
    forall k :: 0 <= k < |lines| ==> |lines[k]| <= width
  }

  /** No line (or word) is empty. */
  predicate NoneEmpty(lines: seq<string>) {
    forall k :: 0 <= k < |lines| ==> lines[k] != ""
  }

  /** `word.substring(0, width)` and `word.substring(width)`: the cut is
      clamped to the word. */
  function Cut(word: string, width: int): (n: nat)
    ensures n <= |word|
  {
    if width < 0 then 0 else if width > |word| then |word| else width
  }

  /** `wrapText`: the words are laid greedily into lines; a word that does
      not fit with a separating space starts a new line, and one that does
      not fit an empty line is cut at the width. If no word is longer than
      the width, no line is; if moreover no word is empty, the lines joined
      by spaces are the text. */
  method WrapText(text: string, width: int) returns (lines: seq<string>)
    ensures WithinWidth(Split(text), width) ==> WithinWidth(lines, width)
    ensures WithinWidth(Split(text), width) && NoneEmpty(Split(text)) ==> Join(lines) == text && NoneEmpty(lines)
  {
    var words := Split(text);
    assert WithinWidth(words, width) ==> |words[0]| <= width;
    lines := [];
    var current := "";
    for i := 0 to |words|
      invariant WrapInvariant(words, width, i, lines, current)
    {
      var lines', current' := PlaceWord(lines, current, words[i], width);
      WrapStep(words, width, i, lines, current, lines', current');
      lines, current := lines', current';
    }
    WrapDone(text, width, lines, current);
    if current != "" {
      lines := lines + [current];
    }
  }

  /** After the last word, flushing the current line gives lines within the
      width and, for a text with no empty word, lines that join back to it. */
  lemma WrapDone(text: string, width: int, lines: seq<string>, current: string)
    requires WrapInvariant(Split(text), width, |Split(text)|, lines, current)
    ensures WithinWidth(Split(text), width) ==> WithinWidth(Flush(lines, current), width)
    ensures WithinWidth(Split(text), width) && NoneEmpty(Split(text)) ==>
      Join(Flush(lines, current)) == text && NoneEmpty(Flush(lines, current))
  {
    var words := Split(text);
    assert words[..|words|] == words;
    JoinSplit(text);
  }

  /** What the lines and the current line hold after the first i words:
      within the width when every word is, and, when moreover no word is
      empty, nothing placed exactly at the start and the words so far
      joined by spaces. */
  predicate WrapInvariant(words: seq<string>, width: int, i: nat, lines: seq<string>, current: string)
    requires i <= |words|
  {
    && (WithinWidth(words, width) ==> WithinWidth(lines, width) && |current| <= width)
    && (WithinWidth(words, width) && NoneEmpty(words) ==>
          && (i == 0 <==> Flush(lines, current) == [])
          && Join(Flush(lines, current)) == Join(words[..i])
          && NoneEmpty(lines))
  }

  /** Placing word i keeps the invariant. */
  lemma WrapStep(words: seq<string>, width: int, i: nat, lines: seq<string>, current: string,
                 lines': seq<string>, current': string)
    requires i < |words| && WrapInvariant(words, width, i, lines, current)
    requires |words[i]| <= width && |current| <= width && WithinWidth(lines, width) ==>
      |current'| <= width && WithinWidth(lines', width)
    requires 0 < |words[i]| <= width ==>
      && Flush(lines', current') != []
      && Join(Flush(lines', current')) == if Flush(lines, current) == [] then words[i] else Join(Flush(lines, current)) + " " + words[i]
    requires 0 < |words[i]| <= width && NoneEmpty(lines) ==> NoneEmpty(lines')
    ensures WrapInvariant(words, width, i + 1, lines', current')
  {
    PrefixJoin(words, i);
  }

  /** The body of `wrapText`'s loop for one word: a word that does not fit
      after the current line and a space closes that line and starts the
      next, or, on an empty line, is cut at the width; otherwise it joins
      the current line. A word no longer than the width keeps every line
      within it, and a non-empty one is joined after a space to what was
      placed before (or alone, if nothing was). */
  method PlaceWord(lines: seq<string>, current: string, word: string, width: int)
      returns (lines': seq<string>, current': string)
    ensures |word| <= width && |current| <= width && WithinWidth(lines, width) ==>
      |current'| <= width && WithinWidth(lines', width)
    ensures 0 < |word| <= width ==>
      && Flush(lines', current') != []
      && Join(Flush(lines', current')) == if Flush(lines, current) == [] then word else Join(Flush(lines, current)) + " " + word
    ensures 0 < |word| <= width && NoneEmpty(lines) ==> NoneEmpty(lines')
  {
    lines', current' := lines, current;
    if |current'| + |word| + 1 > width {
      if current' != "" {
        lines' := lines' + [current'];
        current' := word;
        JoinSnoc(Flush(lines, current), word);
      } else {
        var n := Cut(word, width);
        lines' := lines' + [word[..n]];
        current' := word[n..];
        if 0 < |word| <= width {
          assert word[..n] == word && current' == "";
          if lines != [] {
            JoinSnoc(lines, word);
          }
        }
      }
    } else {
      if current' != "" {
        JoinExtendLast(lines, current', word);
      } else if lines != [] {
        JoinSnoc(lines, word);
      }
      current' := if current' != "" then current' + " " + word else word;
    }
  }

  /** Each word is joined to the ones before it after a space. */
  lemma PrefixJoin(words: seq<string>, i: nat)
    requires i < |words|
    ensures Join(words[..i + 1]) == if i == 0 then words[0] else Join(words[..i]) + " " + words[i]
  {
    assert words[..i + 1] == words[..i] + [words[i]];
    if i > 0 {
      JoinSnoc(words[..i], words[i]);
    }
  }

  /** Extending the last line by a space and a word extends the join. */
  lemma JoinExtendLast(lines: seq<string>, last: string, word: string)
    ensures Join(lines + [last + " " + word]) == Join(lines + [last]) + " " + word
  {
    if |lines| > 0 {
      JoinSnoc(lines, last + " " + word);
      JoinSnoc(lines, last);
    }
  }

  // ---------------------------------------------------------------------
  // Smartphone validation

  /** Why the verdict went the way it did. */
  datatype Reason = NotElongated(aspect: Num) | ElongatedDevice(aspect: Num)
                  | HasKeyboard | HasNotch | TooSmall

  datatype SmartphoneAnalysis = SmartphoneAnalysis(isValidSmartphone: bool, reasons: seq<Reason>, confidence: int)

  /** The confidence before clamping, as a sum of contributions: 50, +30
      elongated or -40 not, -50 with a keyboard or +10 without, +20 with a
      notch, -20 under 5 % of the picture. */
  function SmartphoneScore(elongated: bool, hasKeyboard: bool, hasNotch: bool, tooSmall: bool): int {
    50 + (if elongated then 30 else -40) + (if hasKeyboard then -50 else 10)
    + (if hasNotch then 20 else 0) + (if tooSmall then -20 else 0)
  }

  function ClampPercent(c: int): (r: int)
    ensures 0 <= r <= 100
    ensures 0 <= c <= 100 ==> r == c
  {
    if c < 0 then 0 else if c > 100 then 100 else c
  }

  /** `analyzeSmartphoneDetection`: the confidence moves step by step from
      50, a reason is noted for each finding, the verdict needs an
      elongated shape, no keyboard and a confidence above 40, and the
      confidence is reported clamped to [0, 100]. */
  method AnalyzeSmartphoneDetection(aspectRatio: Num, hasKeyboard: bool, hasNotch: bool,
                                    width: real, height: real) returns (r: SmartphoneAnalysis)
    ensures r.confidence == ClampPercent(SmartphoneScore(Elongated(aspectRatio), hasKeyboard, hasNotch, width * height < 0.05))
    ensures 0 <= r.confidence <= 100
    ensures r.isValidSmartphone <==> Elongated(aspectRatio) && !hasKeyboard
    ensures |r.reasons| >= 1 && r.reasons[0] == if Elongated(aspectRatio) then ElongatedDevice(aspectRatio) else NotElongated(aspectRatio)
    ensures HasKeyboard in r.reasons <==> hasKeyboard
    ensures HasNotch in r.reasons <==> hasNotch
    ensures TooSmall in r.reasons <==> width * height < 0.05
    ensures |r.reasons| == 1 + (if hasKeyboard then 1 else 0) + (if hasNotch then 1 else 0) + (if width * height < 0.05 then 1 else 0)
  {
    var reasons: seq<Reason> := [];
    var confidence := 50;
    var isElongated := Lt(aspectRatio, 0.6) || Gt(aspectRatio, 1.7);
    if !isElongated {
      reasons := reasons + [NotElongated(aspectRatio)];
      confidence := confidence - 40;
    } else {
      reasons := reasons + [ElongatedDevice(aspectRatio)];
      confidence := confidence + 30;
    }
    if hasKeyboard {
      reasons := reasons + [HasKeyboard];
      confidence := confidence - 50;
    } else {
      confidence := confidence + 10;
    }
    if hasNotch {
      reasons := reasons + [HasNotch];
      confidence := confidence + 20;
    }
    var area := width * height;
    if area < 0.05 {
      reasons := reasons + [TooSmall];
      confidence := confidence - 20;
    }
    var isValidSmartphone := isElongated && !hasKeyboard && confidence > 40;
    r := SmartphoneAnalysis(isValidSmartphone, reasons, ClampPercent(confidence));
  }

  /** The score alone separates the verdicts: an elongated device without a
      keyboard scores at least 70 (so the test against 40 never decides),
      and every other device at most 50. Clamping keeps the gap, so the
      reported confidence tells the verdict. */
  lemma ScoreSeparatesVerdicts(elongated: bool, hasKeyboard: bool, hasNotch: bool, tooSmall: bool)
    ensures elongated && !hasKeyboard ==> SmartphoneScore(elongated, hasKeyboard, hasNotch, tooSmall) >= 70
    ensures !(elongated && !hasKeyboard) ==> SmartphoneScore(elongated, hasKeyboard, hasNotch, tooSmall) <= 50
    ensures ClampPercent(SmartphoneScore(elongated, hasKeyboard, hasNotch, tooSmall)) >= 70 <==> elongated && !hasKeyboard
  {
  }

  /** A notch never lowers the confidence, a keyboard or a small size never
      raises it. */
  lemma FeaturesMoveConfidence(elongated: bool, hasKeyboard: bool, hasNotch: bool, tooSmall: bool)
    ensures ClampPercent(SmartphoneScore(elongated, hasKeyboard, true, tooSmall)) >= ClampPercent(SmartphoneScore(elongated, hasKeyboard, false, tooSmall))
    ensures ClampPercent(SmartphoneScore(elongated, true, hasNotch, tooSmall)) <= ClampPercent(SmartphoneScore(elongated, false, hasNotch, tooSmall))
    ensures ClampPercent(SmartphoneScore(elongated, hasKeyboard, hasNotch, true)) <= ClampPercent(SmartphoneScore(elongated, hasKeyboard, hasNotch, false))
  {
  }
}
