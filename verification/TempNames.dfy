/** The name of the temp file a writer creates beside its target. */
module TempNames {
  import opened Base
  import opened FileSystem

  const TEMP_MARK: Text := ".helios-tmp-"

  function TempName(path: Text, pid: nat): Text {
    path + TEMP_MARK + Decimal(pid)
  }

  /** The last '-' of a temp name is the one that ends the mark. */
  lemma LastDash(path: Text, pid: nat)
    ensures var s, dash := TempName(path, pid), |path| + 11;
            && dash < |s| && s[dash] == '-'
            && (forall i :: dash < i < |s| ==> s[i] != '-')
            && s[..|path|] == path && s[dash + 1..] == Decimal(pid)
  {
    var s, dash := TempName(path, pid), |path| + 11;
    assert |TEMP_MARK| == 12;
    assert s[..|path|] == path;
    assert s[dash + 1..] == Decimal(pid);
    assert s[dash] == TEMP_MARK[11] == '-';
    forall i | dash < i < |s| ensures s[i] != '-' {
      assert s[i] == Decimal(pid)[i - dash - 1];
    }
  }

  /** Two writers share a temp name only when both the target and the pid agree. */
  lemma TempNameInjective(p: Text, a: nat, q: Text, b: nat)
    ensures TempName(p, a) == TempName(q, b) <==> p == q && a == b
  {
    if TempName(p, a) == TempName(q, b) {
      LastDash(p, a);
      LastDash(q, b);
      assert |p| == |q|;
      NumeralOfDecimal(a);
      NumeralOfDecimal(b);
    }
  }

  /** What the kernel sees of a temp name: all of it, or only the part of the path before a NUL. */
  lemma NameOfTemp(path: Text, pid: nat)
    ensures Name(TempName(path, pid)) == if '\0' in path then Name(path) else TempName(path, pid)
  {
    assert '\0' !in TEMP_MARK + Decimal(pid);
    assert TempName(path, pid) == path + (TEMP_MARK + Decimal(pid));
    if '\0' in path {
      CStringPrefix(path, TEMP_MARK + Decimal(pid));
    }
  }

  /** Which two writers share the name the kernel sees of their temp: the same one twice, or paths that a NUL cuts
      to the same name, or one that a NUL cuts to the other's temp. */
  lemma TempsShared(p: Text, a: nat, q: Text, b: nat)
    ensures Name(TempName(p, a)) == Name(TempName(q, b)) <==>
              || (p == q && a == b)
              || ('\0' in p && Name(p) == if '\0' in q then Name(q) else TempName(q, b))
              || ('\0' in q && Name(q) == if '\0' in p then Name(p) else TempName(p, a))
  {
    NameOfTemp(p, a);
    NameOfTemp(q, b);
    TempNameInjective(p, a, q, b);
  }

  lemma TempNameDiffers(path: Text, pid: nat)
    ensures TempName(path, pid) != path
  {
    assert |TempName(path, pid)| > |path|;
  }
}
