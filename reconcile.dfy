/** Line-count reconciliation of a correction reply against the lines that were sent:
    the reply's lines where it has them, the original lines where it falls short, and
    nothing past the original count. The sheets processor and the colab script run
    the same loop (`adjusted_lines`, `final_corrected_lines`). */
module Reconcile {
  import opened TextUtil

  /** The lines of a reply: `text.strip().split('\n')`. There is always at least one,
      since splitting the empty text gives `[""]`, and none holds a newline. */
  function ReplyLines(text: string): (r: seq<string>)
    ensures |r| >= 1
    ensures forall i :: 0 <= i < |r| ==> '\n' !in r[i]
  {
    Split(Strip(text), '\n')
  }

  /** Joining the reply lines back gives the stripped reply. */
  lemma ReplyLinesJoin(text: string)
    ensures Join(ReplyLines(text), "\n") == Strip(text)
  {
    JoinSplit(Strip(text), '\n');
  }

  /** The reconciled batch: exactly as many lines as the original, position `i` taken
      from the reply when the reply has a line `i` and from the original otherwise. */
  function Reconciled(orig: seq<string>, reply: seq<string>): (r: seq<string>)
    ensures |r| == |orig|
    ensures forall i :: 0 <= i < |orig| ==> r[i] == if i < |reply| then reply[i] else orig[i]
    ensures |reply| == |orig| ==> r == reply
  {
    if |reply| >= |orig| then reply[..|orig|] else reply + orig[|reply|..]
  }

  /** A reply line never holds a newline, so neither does a reconciled line when the
      original lines do not. */
  lemma ReconciledNoNewline(orig: seq<string>, reply: seq<string>)
    requires forall i :: 0 <= i < |orig| ==> '\n' !in orig[i]
    requires forall i :: 0 <= i < |reply| ==> '\n' !in reply[i]
    ensures forall i :: 0 <= i < |orig| ==> '\n' !in Reconciled(orig, reply)[i]
  {
  }

  /** The `for i in range(len(original))` loop that builds the reconciled lines. */
  method ReconcileLines(orig: seq<string>, reply: seq<string>) returns (adjusted: seq<string>)
    ensures adjusted == Reconciled(orig, reply)
  {
    adjusted := [];
    var i := 0;
    while i < |orig|
      invariant 0 <= i <= |orig|
      invariant |adjusted| == i
      invariant forall k :: 0 <= k < i ==> adjusted[k] == if k < |reply| then reply[k] else orig[k]
    {
      if i < |reply| {
        adjusted := adjusted + [reply[i]];
      } else {
        adjusted := adjusted + [orig[i]];
      }
      i := i + 1;
    }
  }
}
