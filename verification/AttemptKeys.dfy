/** The text of an attempt key, `attemptId:generation` (packages/domain/src/execution.ts). */
module AttemptKeys {
  import opened Text
  import opened Execution

  /** `attemptKey`; generations are positive when an event is parsed. */
  function KeyText(k: AttemptKey): string
    requires k.generation >= 0
  {
    k.attemptId + ":" + Decimal(k.generation)
  }

  /** A text without a colon after the last colon determines what is before it. */
  lemma {:induction false} LastColon(a: string, d: string, b: string, e: string)
    requires a + ":" + d == b + ":" + e && ':' !in d && ':' !in e
    ensures a == b && d == e
    decreases d
  {
    var s, t := a + ":" + d, b + ":" + e;
    assert s[|s| - 1] == (if d == "" then ':' else d[|d| - 1]) && t[|t| - 1] == (if e == "" then ':' else e[|e| - 1]);
    if d != "" && e != "" {
      var front, tail := d[..|d| - 1], e[..|e| - 1];
      assert s[..|s| - 1] == a + ":" + front && t[..|t| - 1] == b + ":" + tail;
      LastColon(a, front, b, tail);
      assert d == front + [d[|d| - 1]] && e == tail + [e[|e| - 1]];
    } else {
      assert (a + ":")[..|a|] == a && (b + ":")[..|b|] == b;
      assert d == "" ==> s == a + ":";
      assert e == "" ==> t == b + ":";
    }
  }

  /** Different attempts have different keys, whatever their ids contain, so a map by text is a map by attempt. */
  lemma KeyTextInjective(j: AttemptKey, k: AttemptKey)
    requires j.generation >= 0 && k.generation >= 0
    ensures KeyText(j) == KeyText(k) <==> j == k
  {
    if KeyText(j) == KeyText(k) {
      assert ':' !in Decimal(j.generation) && ':' !in Decimal(k.generation);
      LastColon(j.attemptId, Decimal(j.generation), k.attemptId, Decimal(k.generation));
      NumberOfDecimal(j.generation);
      NumberOfDecimal(k.generation);
    }
  }
}
