/**
 * components/LogsTable.tsx: the phone number shown in the log table keeps its
 * first four and last two characters and hides the rest behind four
 * asterisks; a number of at most four characters is shown as it is.
 */
module LogsTable {
  const Mask := "****"

  function MaskPhone(phone: string): (shown: string)
    ensures |phone| <= 4 ==> shown == phone
    ensures |phone| > 4 ==> |shown| == 10
    ensures |phone| > 4 ==> shown[..4] == phone[..4] && shown[4..8] == Mask && shown[8..] == phone[|phone| - 2..]
  {
    if |phone| <= 4 then phone else phone[..4] + Mask + phone[|phone| - 2..]
  }

  /**
   * The masked form has one fixed length whatever the number's length, so it
   * hides how long the number is; for a number of five or six characters the
   * visible ends overlap, and for five the fourth character is shown twice.
   */
  lemma MaskHidesLength(p: string, q: string)
    requires |p| > 4 && |q| > 4 && p[..4] == q[..4] && p[|p| - 2..] == q[|q| - 2..]
    ensures MaskPhone(p) == MaskPhone(q)
  {
  }

  lemma FiveCharactersRepeatFourth(p: string)
    requires |p| == 5
    ensures MaskPhone(p)[3] == p[3] && MaskPhone(p)[8] == p[3]
  {
    assert MaskPhone(p)[8..] == p[3..];
  }

  /** Masking is idempotent: a short number is kept, and a masked one has the mask's own ends. */
  lemma {:induction false} MaskTwice(p: string)
    ensures MaskPhone(MaskPhone(p)) == MaskPhone(p)
  {
    if |p| > 4 {
      var m := MaskPhone(p);
      assert m[..4] == p[..4];
      assert m[|m| - 2..] == m[8..];
      assert m == m[..4] + Mask + m[8..];
    }
  }
}
