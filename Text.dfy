/** Facts about strings built by concatenation around separator characters. */
module Text {

  /** A rendering function whose outputs never contain `c` and never coincide. */
  ghost predicate SeparableBy<T(!new)>(render: T -> string, c: char)
  {
    && (forall x :: c !in render(x))
    && (forall x, y :: render(x) == render(y) ==> x == y)
  }

  /** Splitting at the first occurrence of a separator recovers both halves. */
  lemma SplitAtSeparator(a: string, b: string, a': string, b': string, sep: char)
    requires sep !in a && sep !in a'
    requires a + [sep] + b == a' + [sep] + b'
    ensures a == a' && b == b'
  {
    var s := a + [sep] + b;
    assert s[|a|] == sep;
    assert (a' + [sep] + b')[|a'|] == sep;
    assert forall i :: 0 <= i < |a| ==> s[i] == a[i];
    assert forall i :: 0 <= i < |a'| ==> s[i] == a'[i];
    assert a == s[..|a|] == a';
    assert b == s[|a| + 1..] == b';
  }

  /** The items joined by `sep`, with no separator before the first item. */
  function Join(items: seq<string>, sep: string): string
  {
    if |items| == 0 then ""
    else if |items| == 1 then items[0]
    else Join(items[..|items| - 1], sep) + sep + items[|items| - 1]
  }

  /** The separator stands between consecutive items and nowhere else. */
  lemma {:induction false} JoinCons(item: string, items: seq<string>, sep: string)
    requires |items| > 0
    ensures Join([item] + items, sep) == item + sep + Join(items, sep)
  {
    var all := [item] + items;
    if |items| == 1 {
      assert all[..|all| - 1] == [item];
    } else {
      var front := items[..|items| - 1];
      assert all[..|all| - 1] == [item] + front;
      JoinCons(item, front, sep);
    }
  }
}
