/** Composite keys of the ledger library: the parts of a key joined by a colon. `Split` is the
    inverse, used here to state when a key determines the parts it was built from. */
module Keys {

  const Separator: char := ':'

  /** `MakeKey(parts...)`: the parts joined with the separator (Go's `strings.Join`). */
  function MakeKey(parts: seq<string>): string
    decreases |parts|
  {
    if |parts| == 0 then ""
    else if |parts| == 1 then parts[0]
    else parts[0] + [Separator] + MakeKey(parts[1..])
  }

  /** The pieces of `s` between separators (Go's `strings.Split`): never empty. */
  function Split(s: string): (parts: seq<string>)
    ensures |parts| >= 1
    decreases |s|
  {
    if |s| == 0 then [""]
    else if s[0] == Separator then [""] + Split(s[1..])
    else
      var rest := Split(s[1..]);
      [[s[0]] + rest[0]] + rest[1..]
  }

  ghost predicate NoSeparator(parts: seq<string>)
  {
    forall i :: 0 <= i < |parts| ==> Separator !in parts[i]
  }

  /** A string free of separators splits into itself. */
  lemma {:induction false} SplitPlain(a: string)
    requires Separator !in a
    ensures Split(a) == [a]
    decreases |a|
  {
    if |a| > 0 {
      SplitPlain(a[1..]);
      assert [a[0]] + a[1..] == a;
    }
  }

  /** Splitting stops at the first separator: the piece before it comes out whole. */
  lemma {:induction false} SplitAtFirst(a: string, b: string)
    requires Separator !in a
    ensures Split(a + [Separator] + b) == [a] + Split(b)
    decreases |a|
  {
    var s := a + [Separator] + b;
    if |a| == 0 {
      assert s[1..] == b;
    } else {
      assert s[0] == a[0];
      assert s[1..] == a[1..] + [Separator] + b;
      SplitAtFirst(a[1..], b);
      assert [a[0]] + a[1..] == a;
    }
  }

  /** Splitting a key recovers its parts whenever no part contains the separator. */
  lemma {:induction false} SplitMakeKey(parts: seq<string>)
    requires |parts| >= 1
    requires NoSeparator(parts)
    ensures Split(MakeKey(parts)) == parts
    decreases |parts|
  {
    if |parts| == 1 {
      SplitPlain(parts[0]);
    } else {
      assert NoSeparator(parts[1..]) by {
        forall i | 0 <= i < |parts[1..]| ensures Separator !in parts[1..][i] {
          assert parts[1..][i] == parts[i + 1];
        }
      }
      assert Separator !in parts[0];
      SplitAtFirst(parts[0], MakeKey(parts[1..]));
      SplitMakeKey(parts[1..]);
    }
  }

  /** Two keys built from separator-free parts are equal only when the parts are. */
  lemma MakeKeyInjective(p: seq<string>, q: seq<string>)
    requires |p| >= 1 && |q| >= 1
    requires NoSeparator(p) && NoSeparator(q)
    requires MakeKey(p) == MakeKey(q)
    ensures p == q
  {
    SplitMakeKey(p);
    SplitMakeKey(q);
  }
}
