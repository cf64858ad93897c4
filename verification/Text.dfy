/** Substring tests on classification and blocker texts. */
module Text {

  predicate OccursAt(text: string, part: string, i: int) {
    0 <= i <= |text| - |part| && forall k :: 0 <= k < |part| ==> text[i + k] == part[k]
  }

  predicate Contains(text: string, part: string) {
    exists i :: 0 <= i <= |text| - |part| && OccursAt(text, part, i)
  }

  lemma {:induction false} ContainsExactly(text: string, part: string)
    ensures Contains(text, part) <==> exists front: string, back: string :: text == front + part + back
  {
    if i :| 0 <= i <= |text| - |part| && OccursAt(text, part, i) {
      assert text == text[..i] + part + text[i + |part|..];
    }
    if front: string, back: string :| text == front + part + back {
      assert OccursAt(text, part, |front|);
    }
  }
}
