/** The OCR text file name of `capture/ocr.py`: the screenshot's name with its
    last extension replaced by `.txt`. */
module Ocr {
  import opened PyStr
  import Screenshot

  /** `s.rsplit(".", 1)[0]`: everything before the last `.`, or all of `s` when it has none. */
  function BeforeLastDot(s: string): (r: string)
    ensures |r| <= |s| && r == s[..|r|]
  {
    match LastIndexBefore(s, '.', |s|)
    case None => s
    case Some(i) => s[..i]
  }

  /** `ocr_text_filename` */
  function OcrTextFilename(screenshotFilename: string): string {
    BeforeLastDot(screenshotFilename) + ".txt"
  }

  /** The OCR name always ends in `.txt`. */
  lemma EndsInTxt(name: string)
    ensures var r := OcrTextFilename(name);
      |r| >= 4 && r[|r| - 4..] == ".txt"
  {
  }

  /** A name without a dot keeps all of itself. */
  lemma NoDotKeepsName(name: string)
    requires '.' !in name
    ensures OcrTextFilename(name) == name + ".txt"
  {
    forall k | 0 <= k < |name| ensures name[k] != '.' {
      assert name[k] in name;
    }
    assert LastIndexBefore(name, '.', |name|) == None;
  }

  /** Only the final extension is replaced: `a.b.png` gives `a.b.txt`. */
  lemma ReplacesLastExtension(stem: string, ext: string)
    requires '.' !in ext
    ensures OcrTextFilename(stem + "." + ext) == stem + ".txt"
  {
    var s := stem + "." + ext;
    assert s[|stem|] == '.';
    forall k | |stem| < k < |s| ensures s[k] != '.' {
      assert s[k] == ext[k - |stem| - 1];
    }
    assert LastIndexBefore(s, '.', |s|) == Some(|stem|);
    assert s[..|stem|] == stem;
  }

  /** A dot-free stem with `.png` maps to the stem with `.txt`. */
  lemma PngToTxt(stem: string)
    requires '.' !in stem
    ensures OcrTextFilename(stem + ".png") == stem + ".txt"
  {
    assert stem + ".png" == stem + "." + "png";
    ReplacesLastExtension(stem, "png");
  }

  /** Applied to a capture file name, the OCR name is that name with `.png` replaced by
      `.txt`: neither the title nor the timestamp holds a dot. */
  lemma OcrOfCapture(title: string, d: Screenshot.DateTime)
    requires Screenshot.FieldsInRange(d)
    ensures var stem := Screenshot.SanitizeTitle(title) + "_" + Screenshot.FormatTimestamp(d);
      Screenshot.RawFilename(title, d) == stem + ".png" &&
      OcrTextFilename(Screenshot.RawFilename(title, d)) == stem + ".txt"
  {
    var stem := Screenshot.SanitizeTitle(title) + "_" + Screenshot.FormatTimestamp(d);
    Screenshot.StemChars(title, d);
    assert '.' !in stem by {
      forall k | 0 <= k < |stem| ensures stem[k] != '.' {
        assert Screenshot.TitleChar(stem[k]) || stem[k] == '-';
      }
    }
    PngToTxt(stem);
  }

  /** The composition with `generate_filename`: whatever the clock and the environment,
      a produced capture name maps to the same stem with `.txt`. */
  lemma OcrOfGenerated(title: string, ts: Option<Screenshot.DateTime>, env: map<string, string>,
                       nowUtc: int, localWall: int)
    requires Screenshot.GenerateFilename(title, ts, env, nowUtc, localWall).Some?
    ensures var d := Screenshot.StampOf(ts, env, nowUtc, localWall);
      var name := Screenshot.GenerateFilename(title, ts, env, nowUtc, localWall).value;
      name == Screenshot.SanitizeTitle(title) + "_" + Screenshot.FormatTimestamp(d) + ".png" &&
      OcrTextFilename(name) == Screenshot.SanitizeTitle(title) + "_" + Screenshot.FormatTimestamp(d) + ".txt"
  {
    var d := Screenshot.StampOf(ts, env, nowUtc, localWall);
    Screenshot.FilenameShape(title, ts, env, nowUtc, localWall);
    OcrOfCapture(title, d);
  }
}
