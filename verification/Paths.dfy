/** Where the workload manager keeps the files of a workload. */
module Paths {
  /** Spaces in workload names become dashes in directory names. */
  function Dir(name: string): string
  {
    if name == "" then "" else (if name[0] == ' ' then "-" else [name[0]]) + Dir(name[1..])
  }

  /** Every character stays as it is, except that a space becomes a dash. */
  lemma {:induction false} DirAt(name: string, i: nat)
    requires i < |name|
    ensures |Dir(name)| == |name| && Dir(name)[i] == if name[i] == ' ' then '-' else name[i]
  {
    if |name| == 1 {
      assert name[1..] == "";
    } else {
      DirAt(name[1..], if i == 0 then 0 else i - 1);
    }
  }

  predicate SameButForSpaces(x: string, y: string)
  {
    && |x| == |y|
    && forall i :: 0 <= i < |x| ==> x[i] == y[i] || (x[i] in " -" && y[i] in " -")
  }

  /** Names share a directory exactly when they differ in spaces and dashes only. */
  lemma ShareExactly(x: string, y: string)
    ensures Dir(x) == Dir(y) <==> SameButForSpaces(x, y)
  {
    forall i | 0 <= i < |x|
      ensures |Dir(x)| == |x| && Dir(x)[i] == if x[i] == ' ' then '-' else x[i]
    {
      DirAt(x, i);
    }
    forall i | 0 <= i < |y|
      ensures |Dir(y)| == |y| && Dir(y)[i] == if y[i] == ' ' then '-' else y[i]
    {
      DirAt(y, i);
    }
    if Dir(x) == Dir(y) {
      assert |Dir(x)| == |x| && |Dir(y)| == |y|;
    }
    if SameButForSpaces(x, y) {
      assert |Dir(x)| == |Dir(y)|;
    }
  }

  /** Different names can share a directory. */
  lemma SpacesAndDashesShare()
    ensures Dir("a b") == Dir("a-b")
  {
    assert Dir("") == "";
    assert Dir("b") == "b" by { assert "b"[1..] == ""; }
    assert " b"[1..] == "b" && "-b"[1..] == "b";
    assert Dir(" b") == "-b" && Dir("-b") == "-b";
    assert "a b"[1..] == " b" && "a-b"[1..] == "-b";
  }
}
