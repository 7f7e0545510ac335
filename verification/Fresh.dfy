/** Strings that are not in use yet. */
module Fresh {
  lemma {:induction false} LengthBound(s: set<string>) returns (n: nat)
    ensures forall x :: x in s ==> |x| < n
  {
    if s == {} {
      n := 0;
    } else {
      var x :| x in s;
      var m := LengthBound(s - {x});
      n := if m <= |x| then |x| + 1 else m;
    }
  }

  lemma FreshString(s: set<string>)
    ensures exists x: string :: x !in s && x != ""
  {
    var n := LengthBound(s);
    var x := seq(n + 1, i => 'a');
    assert x !in s && x != "";
  }
}
