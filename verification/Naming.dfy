/** Decimal printing, and the names that clients and workers build from numbers. */
module Naming {

  const DIGITS := "0123456789"

  /** `std::to_string` and Python's formatting of a non-negative number. */
  function ToString(n: nat): (s: string)
    ensures s != []
  {
    if n < 10 then [DIGITS[n]] else ToString(n / 10) + [DIGITS[n % 10]]
  }

  lemma {:induction false} PrintsDigits(n: nat)
    ensures forall c :: c in ToString(n) ==> c in DIGITS
  {
    if n >= 10 {
      PrintsDigits(n / 10);
      assert DIGITS[n % 10] in DIGITS;
    } else {
      assert DIGITS[n] in DIGITS;
    }
  }

  /** The number a decimal string stands for. */
  ghost function Value(s: string): int {
    if s == [] then 0 else 10 * Value(s[..|s| - 1]) + (s[|s| - 1] as int - '0' as int)
  }

  /** Printing is decimal notation: digits only, no leading zero, and reading it gives the number back. */
  lemma {:induction false} ToStringReads(n: nat)
    ensures Value(ToString(n)) == n
    ensures forall c :: c in ToString(n) ==> '0' <= c <= '9'
    ensures n >= 1 ==> ToString(n)[0] != '0'
    ensures ToString(0) == "0"
  {
    var s := ToString(n);
    DigitValue(n % 10);
    if n >= 10 {
      ToStringReads(n / 10);
      assert s[..|s| - 1] == ToString(n / 10);
      assert s[0] == ToString(n / 10)[0];
    } else {
      assert s == [DIGITS[n]] && s[..0] == [];
      assert n >= 1 ==> s[0] as int - '0' as int == n;
    }
  }

  lemma DigitValue(d: nat)
    requires d < 10
    ensures '0' <= DIGITS[d] <= '9' && DIGITS[d] as int - '0' as int == d
  {
    assert DIGITS == ['0', '1', '2', '3', '4', '5', '6', '7', '8', '9'];
  }

  /** Different numbers print differently. */
  lemma ToStringInjective(a: nat, b: nat)
    requires ToString(a) == ToString(b)
    ensures a == b
  {
    ToStringReads(a);
    ToStringReads(b);
  }

  const TASK_DATA := "taskData.json"

  function InputName(i: nat): string {
    ToString(i) + "_input"
  }

  function OutputName(i: nat): string {
    ToString(i) + "_output"
  }

  /** The 2n + 1 part names of an upload are pairwise distinct. */
  lemma NamesDistinct(i: nat, j: nat)
    ensures InputName(i) == InputName(j) ==> i == j
    ensures OutputName(i) == OutputName(j) ==> i == j
    ensures InputName(i) != OutputName(j)
    ensures InputName(i) != TASK_DATA && OutputName(i) != TASK_DATA
  {
    if InputName(i) == InputName(j) {
      assert ToString(i) == InputName(i)[..|InputName(i)| - 6] == ToString(j);
      ToStringInjective(i, j);
    }
    if OutputName(i) == OutputName(j) {
      assert ToString(i) == OutputName(i)[..|OutputName(i)| - 7] == ToString(j);
      ToStringInjective(i, j);
    }
    assert InputName(i)[|InputName(i)| - 6] == '_' && OutputName(j)[|OutputName(j)| - 6] == 'o';
    assert InputName(i)[|InputName(i)| - 1] == 't' && OutputName(i)[|OutputName(i)| - 1] == 't';
    assert TASK_DATA[|TASK_DATA| - 1] == 'n';
  }

  /** The directory of worker `i`. */
  function LocalStorage(i: nat): string {
    "localStorage" + ToString(i)
  }

  function FilePath(directory: string, file: string): string {
    directory + "/" + file
  }

  /** No two workers share a file: the worker number can be read back from any of its paths. */
  lemma PathsDisjoint(i: nat, file: string, j: nat, other: string)
    requires FilePath(LocalStorage(i), file) == FilePath(LocalStorage(j), other)
    ensures i == j && file == other
  {
    var prefix := "localStorage";
    var p, q := FilePath(LocalStorage(i), file), FilePath(LocalStorage(j), other);
    assert p == prefix + (ToString(i) + "/" + file);
    assert q == prefix + (ToString(j) + "/" + other);
    assert p[|prefix|..] == ToString(i) + "/" + file;
    assert q[|prefix|..] == ToString(j) + "/" + other;
    SplitAtSlash(i, file, j, other);
    ToStringInjective(i, j);
  }

  lemma SplitAtSlash(i: nat, x: string, j: nat, y: string)
    requires ToString(i) + "/" + x == ToString(j) + "/" + y
    ensures ToString(i) == ToString(j) && x == y
  {
    PrintsDigits(i);
    PrintsDigits(j);
    var a, b := ToString(i), ToString(j);
    var s, t := a + "/" + x, b + "/" + y;
    assert s[|a|] == '/' && t[|b|] == '/';
    assert forall k :: 0 <= k < |a| ==> s[k] == a[k] && a[k] in a;
    assert forall k :: 0 <= k < |b| ==> t[k] == b[k] && b[k] in b;
    assert |a| == |b|;
    assert a == s[..|a|] == b;
    assert x == s[|a| + 1..] == y;
  }
}
