/** Enumerations shared by program configuration and scheduling (program_config.h). */
module ProgramTypes {

  datatype Redirection = DevNull | Pipe | File | IndividualLog | ContinuousLog | Stdout

  datatype StartMode = Never | Always | Interval | Cron

  // Which redirections make sense for which stream, according to program_config.h.
  predicate StdinOk(r: Redirection) { r.DevNull? || r.Pipe? || r.File? }

  predicate StdoutOk(r: Redirection) { r != Pipe && r != Stdout }

  predicate StderrOk(r: Redirection) { r != Pipe }

  // ----- names without case -----

  function LowerCase(c: char): char {
    if 'A' <= c <= 'Z' then (c as int + 32) as char else c
  }

  /** Two names are the same to strcasecmp exactly when they fold to the same text. */
  function Folded(name: string): string {
    seq(|name|, i requires 0 <= i < |name| => LowerCase(name[i]))
  }

  /** Names fold to the same text exactly when they have the same characters up to the case of the
      26 letters. */
  lemma SameUpToCase(a: string, b: string)
    ensures Folded(a) == Folded(b) <==>
              |a| == |b| && forall i | 0 <= i < |a| ::
                || a[i] == b[i]
                || ('A' <= a[i] <= 'Z' && b[i] as int == a[i] as int + 32)
                || ('A' <= b[i] <= 'Z' && a[i] as int == b[i] as int + 32)
  {
    if |a| == |b| {
      assert Folded(a) == Folded(b) <==> forall i | 0 <= i < |a| :: LowerCase(a[i]) == LowerCase(b[i]) by {
        assert forall i | 0 <= i < |a| :: Folded(a)[i] == LowerCase(a[i]) && Folded(b)[i] == LowerCase(b[i]);
      }
    } else {
      assert |Folded(a)| == |a| && |Folded(b)| == |b|;
    }
  }
}
