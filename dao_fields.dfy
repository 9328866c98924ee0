/** getAllFields: the persisted fields of a mapped class, gathered from the class
    itself and then from each superclass, keeping only fields annotated @DaoColumn. */
module DaoFields {
  import opened Wrappers
  import opened DaoTypes

  /** A declared field together with its identity. */
  datatype Located = Located(id: FieldId, decl: FieldDecl)

  /** The fields declared by the class at depth `level`, in declaration order. */
  function Level(chain: seq<seq<FieldDecl>>, level: nat): seq<Located>
    requires level < |chain|
  {
    seq(|chain[level]|, j requires 0 <= j < |chain[level]| => Located(FieldId(level, j), chain[level][j]))
  }

  /** The fields declared by the first n classes of the chain, most-derived class first. */
  function DeclaredUpTo(chain: seq<seq<FieldDecl>>, n: nat): seq<Located>
    requires n <= |chain|
  {
    if n == 0 then [] else DeclaredUpTo(chain, n - 1) + Level(chain, n - 1)
  }

  /** What the filter keeps of one declared field. */
  function Keep(x: Located): seq<PersistedField>
  {
    match x.decl.column
    case None => []
    case Some(c) => [PersistedField(x.id, x.decl.name, x.decl.javaType, c)]
  }

  /** The annotated fields of s, in the order of s. */
  function Annotated(s: seq<Located>): seq<PersistedField>
  {
    if s == [] then [] else Annotated(s[..|s| - 1]) + Keep(s[|s| - 1])
  }

  /** The persisted fields of a class chain, as getAllFields returns them. */
  function Persisted(chain: seq<seq<FieldDecl>>): seq<PersistedField>
  {
    Annotated(DeclaredUpTo(chain, |chain|))
  }

  /** p describes an annotated field that the chain declares, at the place p.id names. */
  ghost predicate DeclaredAnnotated(chain: seq<seq<FieldDecl>>, p: PersistedField)
  {
    && p.id.level < |chain|
    && p.id.position < |chain[p.id.level]|
    && chain[p.id.level][p.id.position] == FieldDecl(p.name, p.javaType, Some(p.column))
  }

  /** Field a comes before field b: a lies in a more-derived class, or in the same class
      and earlier in its declaration. */
  predicate Before(a: FieldId, b: FieldId)
  {
    a.level < b.level || (a.level == b.level && a.position < b.position)
  }

  ghost predicate StrictlyOrdered(s: seq<PersistedField>)
  {
    forall i, j :: 0 <= i < j < |s| ==> Before(s[i].id, s[j].id)
  }

  /** Walks the class chain, adding every declared field, then removes those that are not
      annotated with @DaoColumn (DaoSqlite.getAllFields). */
  method GetAllFields(c: ClassDesc) returns (fields: seq<PersistedField>)
    ensures fields == Persisted(c.chain)
  {
    var all: seq<Located> := [];
    var level := 0;
    while level < |c.chain|
      invariant 0 <= level <= |c.chain|
      invariant all == DeclaredUpTo(c.chain, level)
    {
      assert DeclaredUpTo(c.chain, level + 1) == all + Level(c.chain, level);
      all := all + Level(c.chain, level);
      level := level + 1;
    }
    fields := [];
    var i := 0;
    while i < |all|
      invariant 0 <= i <= |all|
      invariant fields == Annotated(all[..i])
    {
      assert Annotated(all[..i + 1]) == fields + Keep(all[i]) by {
        assert all[..i + 1][..i] == all[..i];
        assert all[..i + 1][i] == all[i];
      }
      fields := fields + Keep(all[i]);
      i := i + 1;
    }
    assert all[..|all|] == all;
  }

  /** Filtering commutes with concatenation: the filter keeps each part's fields in place. */
  lemma {:induction false} AnnotatedConcat(a: seq<Located>, b: seq<Located>)
    ensures Annotated(a + b) == Annotated(a) + Annotated(b)
  {
    if b == [] {
      assert a + b == a;
    } else {
      var b' := b[..|b| - 1];
      assert (a + b)[..|a + b| - 1] == a + b';
      AnnotatedConcat(a, b');
    }
  }

  /** The filter keeps exactly the annotated fields of s. */
  lemma {:induction false} AnnotatedMember(s: seq<Located>, p: PersistedField)
    ensures p in Annotated(s) <==> exists i :: 0 <= i < |s| && Keep(s[i]) == [p]
  {
    if s != [] {
      var s' := s[..|s| - 1];
      AnnotatedMember(s', p);
      if p in Annotated(s') {
        var i :| 0 <= i < |s'| && Keep(s'[i]) == [p];
        assert s[i] == s'[i];
      }
      if exists i :: 0 <= i < |s| && Keep(s[i]) == [p] {
        var i :| 0 <= i < |s| && Keep(s[i]) == [p];
        if i < |s'| {
          assert s'[i] == s[i];
        }
      }
    }
  }

  /** The located fields of the first n classes are exactly the fields those classes declare. */
  lemma {:induction false} DeclaredUpToMember(chain: seq<seq<FieldDecl>>, n: nat, x: Located)
    requires n <= |chain|
    ensures x in DeclaredUpTo(chain, n) <==>
      x.id.level < n && x.id.position < |chain[x.id.level]| && x.decl == chain[x.id.level][x.id.position]
  {
    if n > 0 {
      DeclaredUpToMember(chain, n - 1, x);
      var lv := Level(chain, n - 1);
      if x.id.level == n - 1 && x.id.position < |chain[x.id.level]| && x.decl == chain[x.id.level][x.id.position] {
        assert lv[x.id.position] == x;
      }
    }
  }

  /** The located fields of the first n classes come in strictly increasing order. */
  lemma {:induction false} DeclaredUpToOrdered(chain: seq<seq<FieldDecl>>, n: nat)
    requires n <= |chain|
    ensures forall i, j :: 0 <= i < j < |DeclaredUpTo(chain, n)| ==>
      Before(DeclaredUpTo(chain, n)[i].id, DeclaredUpTo(chain, n)[j].id)
  {
    if n > 0 {
      DeclaredUpToOrdered(chain, n - 1);
      var d := DeclaredUpTo(chain, n - 1);
      var lv := Level(chain, n - 1);
      forall x | x in d
        ensures x.id.level < n - 1
      {
        DeclaredUpToMember(chain, n - 1, x);
      }
      var all := d + lv;
      forall i, j | 0 <= i < j < |all|
        ensures Before(all[i].id, all[j].id)
      {
        if j < |d| {
          assert all[i] == d[i] && all[j] == d[j];
        } else if i < |d| {
          assert all[i] == d[i] && d[i] in d;
          assert all[j] == lv[j - |d|];
        } else {
          assert all[i] == lv[i - |d|] && all[j] == lv[j - |d|];
        }
      }
    }
  }

  /** The filter of a strictly ordered sequence is strictly ordered. */
  lemma {:induction false} AnnotatedOrdered(s: seq<Located>)
    requires forall i, j :: 0 <= i < j < |s| ==> Before(s[i].id, s[j].id)
    ensures StrictlyOrdered(Annotated(s))
  {
    if s != [] {
      var s' := s[..|s| - 1];
      var last := s[|s| - 1];
      AnnotatedOrdered(s');
      var a := Annotated(s');
      var r := a + Keep(last);
      forall i, j | 0 <= i < j < |r|
        ensures Before(r[i].id, r[j].id)
      {
        if j >= |a| {
          assert r[j] == Keep(last)[0] && r[j].id == last.id;
          assert r[i] in a;
          AnnotatedMember(s', r[i]);
          var k :| 0 <= k < |s'| && Keep(s'[k]) == [r[i]];
          assert s[k] == s'[k];
          assert r[i].id == s[k].id;
        } else {
          assert r[i] == a[i] && r[j] == a[j];
        }
      }
    }
  }

  /** The filter keeps a declared field as p exactly when it is p's declaration. */
  lemma KeepExactly(x: Located, p: PersistedField)
    ensures Keep(x) == [p] <==> x.id == p.id && x.decl == FieldDecl(p.name, p.javaType, Some(p.column))
  {
  }

  /** Every persisted field is an annotated field that the chain declares. */
  lemma PersistedSound(chain: seq<seq<FieldDecl>>, p: PersistedField)
    requires p in Persisted(chain)
    ensures DeclaredAnnotated(chain, p)
  {
    var d := DeclaredUpTo(chain, |chain|);
    AnnotatedMember(d, p);
    var i :| 0 <= i < |d| && Keep(d[i]) == [p];
    KeepExactly(d[i], p);
    DeclaredUpToMember(chain, |chain|, d[i]);
  }

  /** Every annotated field that the chain declares is persisted. */
  lemma PersistedComplete(chain: seq<seq<FieldDecl>>, p: PersistedField)
    requires DeclaredAnnotated(chain, p)
    ensures p in Persisted(chain)
  {
    var d := DeclaredUpTo(chain, |chain|);
    var x := Located(p.id, chain[p.id.level][p.id.position]);
    DeclaredUpToMember(chain, |chain|, x);
    var i :| 0 <= i < |d| && d[i] == x;
    KeepExactly(x, p);
    AnnotatedMember(d, p);
  }

  /** The persisted fields are exactly the @DaoColumn fields that the chain declares. */
  lemma PersistedExactly(chain: seq<seq<FieldDecl>>, p: PersistedField)
    ensures p in Persisted(chain) <==> DeclaredAnnotated(chain, p)
  {
    if p in Persisted(chain) {
      PersistedSound(chain, p);
    }
    if DeclaredAnnotated(chain, p) {
      PersistedComplete(chain, p);
    }
  }

  /** The persisted fields come most-derived class first, then each superclass in turn,
      each class's fields in declaration order; as the order is strict, no field appears
      twice, and since the ids identify declarations, nothing else is removed. */
  lemma PersistedOrdered(chain: seq<seq<FieldDecl>>)
    ensures StrictlyOrdered(Persisted(chain))
  {
    DeclaredUpToOrdered(chain, |chain|);
    AnnotatedOrdered(DeclaredUpTo(chain, |chain|));
  }

  /** Adding a superclass appends its annotated fields after those already gathered. */
  lemma PersistedExtend(chain: seq<seq<FieldDecl>>, superFields: seq<FieldDecl>)
    ensures Persisted(chain + [superFields]) ==
      Persisted(chain) + Annotated(Level(chain + [superFields], |chain|))
  {
    var ext := chain + [superFields];
    DeclaredUpToPrefix(chain, superFields, |chain|);
    assert DeclaredUpTo(ext, |ext|) == DeclaredUpTo(chain, |chain|) + Level(ext, |chain|);
    AnnotatedConcat(DeclaredUpTo(chain, |chain|), Level(ext, |chain|));
  }

  lemma {:induction false} DeclaredUpToPrefix(chain: seq<seq<FieldDecl>>, superFields: seq<FieldDecl>, n: nat)
    requires n <= |chain|
    ensures DeclaredUpTo(chain + [superFields], n) == DeclaredUpTo(chain, n)
  {
    if n > 0 {
      DeclaredUpToPrefix(chain, superFields, n - 1);
      assert Level(chain + [superFields], n - 1) == Level(chain, n - 1);
    }
  }

  /** Two annotated fields that share a column name are both kept: nothing is de-duplicated. */
  lemma NoDeduplication(chain: seq<seq<FieldDecl>>, p: PersistedField, q: PersistedField)
    requires DeclaredAnnotated(chain, p) && DeclaredAnnotated(chain, q) && p.id != q.id
    requires ColumnName(p) == ColumnName(q)
    ensures p in Persisted(chain) && q in Persisted(chain)
    ensures exists i, j :: 0 <= i < j < |Persisted(chain)| && ColumnName(Persisted(chain)[i]) == ColumnName(Persisted(chain)[j])
  {
    PersistedExactly(chain, p);
    PersistedExactly(chain, q);
    var r := Persisted(chain);
    var i :| 0 <= i < |r| && r[i] == p;
    var j :| 0 <= j < |r| && r[j] == q;
    if i < j {
      assert ColumnName(r[i]) == ColumnName(r[j]);
    } else {
      assert ColumnName(r[j]) == ColumnName(r[i]);
    }
  }
}
