/** One scraped showing and its identity key (`ShowingRow.kt`). */
module Rows {
  import opened Text

  /** A row of the activity-log table: the four cell texts, in table order. */
  datatype ShowingRow = ShowingRow(name: string, showingDate: string, feedback: string, source: string)

  /**
   * `fingerprint()`: the trimmed name, showing date and source joined by `|`.
   * The feedback text takes no part in a row's identity.
   */
  function Fingerprint(r: ShowingRow): (fp: string)
    ensures fp == Trim(r.name) + "|" + Trim(r.showingDate) + "|" + Trim(r.source)
  {
    JoinThree(Trim(r.name), Trim(r.showingDate), Trim(r.source), "|");
    Join([Trim(r.name), Trim(r.showingDate), Trim(r.source)], "|")
  }

  /** `toString()`: the four trimmed fields separated by ` | `. */
  function Display(r: ShowingRow): (s: string)
    ensures s == Join([Trim(r.name), Trim(r.showingDate), Trim(r.feedback), Trim(r.source)], " | ")
  {
    JoinFour(Trim(r.name), Trim(r.showingDate), Trim(r.feedback), Trim(r.source), " | ");
    Trim(r.name) + " | " + Trim(r.showingDate) + " | " + Trim(r.feedback) + " | " + Trim(r.source)
  }

  /** Rows that differ only in their feedback share a fingerprint, so a changed feedback never makes a row new. */
  lemma FingerprintIgnoresFeedback(r: ShowingRow, feedback: string)
    ensures Fingerprint(r.(feedback := feedback)) == Fingerprint(r)
  {
  }

  /** Leading or trailing whitespace around the identity fields does not change the fingerprint. */
  lemma FingerprintIgnoresPadding(r: ShowingRow, p1: string, q1: string, p2: string, q2: string, p3: string, q3: string)
    requires IsBlank(p1) && IsBlank(q1) && IsBlank(p2) && IsBlank(q2) && IsBlank(p3) && IsBlank(q3)
    ensures Fingerprint(ShowingRow(p1 + r.name + q1, p2 + r.showingDate + q2, r.feedback, p3 + r.source + q3))
         == Fingerprint(r)
  {
    TrimIgnoresPadding(p1, r.name, q1);
    TrimIgnoresPadding(p2, r.showingDate, q2);
    TrimIgnoresPadding(p3, r.source, q3);
  }

  /** The identity fields contain no `|` once trimmed, so the fingerprint can be split back into them. */
  predicate PipeFree(r: ShowingRow) {
    '|' !in Trim(r.name) && '|' !in Trim(r.showingDate) && '|' !in Trim(r.source)
  }

  /** Splitting a pipe-free row's fingerprint at `|` recovers its trimmed name, date and source. */
  lemma FingerprintSplits(r: ShowingRow)
    requires PipeFree(r)
    ensures Split(Fingerprint(r), '|') == [Trim(r.name), Trim(r.showingDate), Trim(r.source)]
  {
    SplitJoin([Trim(r.name), Trim(r.showingDate), Trim(r.source)], '|');
  }

  /** Among pipe-free rows, two rows share a fingerprint exactly when their trimmed identity fields agree. */
  lemma FingerprintIdentifies(r1: ShowingRow, r2: ShowingRow)
    requires PipeFree(r1) && PipeFree(r2)
    ensures Fingerprint(r1) == Fingerprint(r2) <==>
      (Trim(r1.name) == Trim(r2.name) && Trim(r1.showingDate) == Trim(r2.showingDate) && Trim(r1.source) == Trim(r2.source))
  {
    FingerprintSplits(r1);
    FingerprintSplits(r2);
  }

  /** Unpadded: non-empty, and neither starting nor ending with whitespace. */
  predicate Unpadded(s: string) {
    |s| > 0 && !IsWhitespace(s[0]) && !IsWhitespace(s[|s| - 1])
  }

  /**
   * Without the pipe-free condition identity is lost: moving a `|` from the end of the
   * name to the start of the date gives a different row with the same fingerprint.
   */
  lemma FingerprintCollision(x: string, y: string, z: string, feedback: string, src: string)
    requires Unpadded(x) && Unpadded(y) && Unpadded(z) && Unpadded(src)
    ensures ShowingRow(x + "|" + y, z, feedback, src) != ShowingRow(x, y + "|" + z, feedback, src)
    ensures Fingerprint(ShowingRow(x + "|" + y, z, feedback, src)) == Fingerprint(ShowingRow(x, y + "|" + z, feedback, src))
  {
    var name1, date2, t := x + "|" + y, y + "|" + z, Trim(src);
    assert Fingerprint(ShowingRow(name1, z, feedback, src)) == name1 + "|" + z + "|" + t by {
      TrimUnpadded(name1);
      TrimUnpadded(z);
    }
    assert Fingerprint(ShowingRow(x, date2, feedback, src)) == x + "|" + date2 + "|" + t by {
      TrimUnpadded(x);
      TrimUnpadded(date2);
    }
    PipeShift(x, y, z, t);
    assert |name1| != |x|;
  }

  lemma PipeShift(x: string, y: string, z: string, t: string)
    ensures (x + "|" + y) + "|" + z + "|" + t == x + "|" + (y + "|" + z) + "|" + t
  {
  }
}
