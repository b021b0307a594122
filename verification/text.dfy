/** Searching a string for a character, shared by the readers of list items and of written text. */
module Text {

  /** The position of the first `c` in `s`, or `|s|` when there is none. */
  function IndexOf(s: string, c: char): (k: nat)
    ensures k <= |s|
    ensures k < |s| ==> s[k] == c
    decreases |s|
  {
    if |s| == 0 || s[0] == c then 0 else 1 + IndexOf(s[1..], c)
  }

  /** No `c` comes before the position `IndexOf` reports. */
  lemma {:induction false} IndexOfIsFirst(s: string, c: char)
    ensures forall j :: 0 <= j < IndexOf(s, c) ==> s[j] != c
    decreases |s|
  {
    if |s| > 0 && s[0] != c {
      IndexOfIsFirst(s[1..], c);
      forall j | 0 < j < IndexOf(s, c) ensures s[j] != c {
        assert s[j] == s[1..][j - 1];
      }
    }
  }

  /** A `c` at `k` with none before it is what `IndexOf` finds; so is the end, when `s` has none. */
  lemma {:induction false} IndexOfAt(s: string, c: char, k: nat)
    requires k <= |s| && (k < |s| ==> s[k] == c)
    requires forall j :: 0 <= j < k ==> s[j] != c
    ensures IndexOf(s, c) == k
    decreases k
  {
    if k > 0 {
      assert s[0] != c;
      forall j | 0 <= j < k - 1 ensures s[1..][j] != c {
        assert s[1..][j] == s[j + 1];
      }
      IndexOfAt(s[1..], c, k - 1);
    }
  }
}
