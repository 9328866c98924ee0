/** The string operations the SQL builders use: joining with a separator, the
    append-then-trim idiom of StringBuilder, and counting placeholder characters. */
module SqlText {

  // Punctuation shared by the statement builders.
  const Separator := ", "
  const OpenColumns := " ("
  const CloseStatement := ");"

  /** The items separated by sep. */
  function Join(sep: string, xs: seq<string>): string
  {
    if |xs| == 0 then ""
    else if |xs| == 1 then xs[0]
    else Join(sep, xs[..|xs| - 1]) + sep + xs[|xs| - 1]
  }

  /** f applied to each item, in order. */
  function MapText<A>(f: A -> string, xs: seq<A>): (r: seq<string>)
    ensures |r| == |xs|
    ensures forall i :: 0 <= i < |xs| ==> r[i] == f(xs[i])
  {
    if xs == [] then [] else MapText(f, xs[..|xs| - 1]) + [f(xs[|xs| - 1])]
  }

  /** Three items joined. */
  lemma JoinThree(sep: string, a: string, b: string, c: string)
    ensures Join(sep, [a, b, c]) == a + sep + b + sep + c
  {
    assert [a, b, c][..2] == [a, b];
    assert [a, b][..1] == [a];
    assert Join(sep, [a, b]) == a + sep + b;
  }

  /** Every item followed by sep: what a loop appending "item, " builds. */
  function Terminated(sep: string, xs: seq<string>): string
  {
    if xs == [] then "" else Terminated(sep, xs[..|xs| - 1]) + xs[|xs| - 1] + sep
  }

  /** Java's String.endsWith. */
  predicate EndsWith(s: string, suffix: string)
  {
    |suffix| <= |s| && s[|s| - |suffix|..] == suffix
  }

  /** The number of occurrences of c in s. */
  function Count(c: char, s: string): nat
  {
    if s == [] then 0 else Count(c, s[..|s| - 1]) + (if s[|s| - 1] == c then 1 else 0)
  }

  /** The total number of occurrences of c in the items of xs. */
  function CountAll(c: char, xs: seq<string>): nat
  {
    if xs == [] then 0 else CountAll(c, xs[..|xs| - 1]) + Count(c, xs[|xs| - 1])
  }

  /** Trimming the last separator off the terminated items leaves the joined items. */
  lemma {:induction false} TerminatedJoin(sep: string, xs: seq<string>)
    requires |xs| > 0
    ensures Terminated(sep, xs) == Join(sep, xs) + sep
  {
    if |xs| > 1 {
      var xs' := xs[..|xs| - 1];
      TerminatedJoin(sep, xs');
    } else {
      assert xs[..0] == [];
    }
  }

  /** One more item extends the terminated prefix of xs by that item and sep. */
  lemma TerminatedStep(sep: string, xs: seq<string>, i: nat)
    requires i < |xs|
    ensures Terminated(sep, xs[..i + 1]) == Terminated(sep, xs[..i]) + xs[i] + sep
  {
    assert xs[..i + 1][..i] == xs[..i];
  }

  /** Regrouping a concatenation, as a fact of its own so that long builder methods need
      not prove it among their other obligations. */
  lemma AppendAssoc(a: string, b: string, c: string)
    ensures a + b + c == a + (b + c)
  {
  }

  lemma MapTextSnoc<A>(f: A -> string, xs: seq<A>, x: A)
    ensures MapText(f, xs + [x]) == MapText(f, xs) + [f(x)]
  {
    assert (xs + [x])[..|xs|] == xs;
  }

  /** Appending an item and sep to the terminated items terminates one item more. */
  lemma TerminatedSnoc(sep: string, s: string, ys: seq<string>, y: string)
    requires s == Terminated(sep, ys)
    ensures s + y + sep == Terminated(sep, ys + [y])
  {
    assert (ys + [y])[..|ys|] == ys;
  }

  /** Appending one more item and sep to a text built so far extends the terminated prefix. */
  lemma AppendTerminated(query: string, prefix: string, sep: string, xs: seq<string>, i: nat, x: string)
    requires i < |xs| && x == xs[i]
    requires query == prefix + Terminated(sep, xs[..i])
    ensures query + x + sep == prefix + Terminated(sep, xs[..i + 1])
  {
    TerminatedStep(sep, xs, i);
  }

  /** The StringBuilder form of the idiom: a builder holding each item followed by sep is
      non-empty exactly when there is an item, and cutting sep off a non-empty one leaves
      the items joined by sep. */
  lemma TrimBuilder(sep: string, xs: seq<string>)
    requires |sep| > 0
    ensures var s := Terminated(sep, xs);
      (|s| > 0 <==> |xs| > 0) && (if |s| > 0 then s[..|s| - |sep|] else s) == Join(sep, xs)
  {
    if xs != [] {
      TerminatedJoin(sep, xs);
    }
  }

  /** The append-then-trim idiom: after a text that does not end with sep comes each item
      followed by sep; removing a final sep, if there is one, leaves the items joined by sep. */
  lemma TrimTerminated(prefix: string, sep: string, xs: seq<string>)
    requires |sep| > 0 && !EndsWith(prefix, sep)
    ensures var s := prefix + Terminated(sep, xs);
      (if EndsWith(s, sep) then s[..|s| - |sep|] else s) == prefix + Join(sep, xs)
  {
    var s := prefix + Terminated(sep, xs);
    TerminatedEndsWith(prefix, sep, xs);
    if xs != [] {
      TerminatedJoin(sep, xs);
      assert s == (prefix + Join(sep, xs)) + sep;
    }
  }

  /** The trim of initDao, with the two characters of ", " written out as the source has them. */
  lemma TrimSeparator(prefix: string, xs: seq<string>)
    requires !EndsWith(prefix, Separator)
    ensures var s := prefix + Terminated(Separator, xs);
      (EndsWith(s, Separator) ==> s[..|s| - 2] == prefix + Join(Separator, xs))
      && (!EndsWith(s, Separator) ==> s == prefix + Join(Separator, xs))
  {
    TrimTerminated(prefix, Separator, xs);
  }

  /** A text that does not end with sep, followed by items terminated by sep, ends with sep
      exactly when there is at least one item. */
  lemma TerminatedEndsWith(prefix: string, sep: string, xs: seq<string>)
    requires |sep| > 0 && !EndsWith(prefix, sep)
    ensures EndsWith(prefix + Terminated(sep, xs), sep) <==> |xs| > 0
  {
    if xs == [] {
      assert prefix + Terminated(sep, xs) == prefix;
    } else {
      var s := prefix + Terminated(sep, xs);
      assert s == prefix + Terminated(sep, xs[..|xs| - 1]) + xs[|xs| - 1] + sep;
      assert s[|s| - |sep|..] == sep;
    }
  }

  lemma {:induction false} CountAbsent(c: char, s: string)
    requires c !in s
    ensures Count(c, s) == 0
  {
    if s != [] {
      assert s[..|s| - 1] <= s;
      CountAbsent(c, s[..|s| - 1]);
    }
  }

  lemma {:induction false} CountConcat(c: char, a: string, b: string)
    ensures Count(c, a + b) == Count(c, a) + Count(c, b)
  {
    if b == [] {
      assert a + b == a;
    } else {
      assert (a + b)[..|a + b| - 1] == a + b[..|b| - 1];
      CountConcat(c, a, b[..|b| - 1]);
    }
  }

  /** Joining adds the separator's occurrences once between each pair of neighbouring items. */
  lemma {:induction false} CountJoin(c: char, sep: string, xs: seq<string>)
    ensures |xs| > 0 ==> Count(c, Join(sep, xs)) == CountAll(c, xs) + (|xs| - 1) * Count(c, sep)
    ensures |xs| == 0 ==> Count(c, Join(sep, xs)) == 0
  {
    if |xs| == 1 {
      assert xs[..0] == [];
    } else if |xs| > 1 {
      var xs' := xs[..|xs| - 1];
      CountJoin(c, sep, xs');
      CountConcat(c, Join(sep, xs') + sep, xs[|xs| - 1]);
      CountConcat(c, Join(sep, xs'), sep);
    }
  }

  /** When every item holds c exactly k times, the items hold it k times each. */
  lemma {:induction false} CountAllUniform(c: char, xs: seq<string>, k: nat)
    requires forall i :: 0 <= i < |xs| ==> Count(c, xs[i]) == k
    ensures CountAll(c, xs) == |xs| * k
  {
    if xs != [] {
      CountAllUniform(c, xs[..|xs| - 1], k);
    }
  }
}
