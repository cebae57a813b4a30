/** `formatearDuracion`: seconds as `MM:SS`, with JavaScript's `Math.floor`,
    `%`, `String` and `padStart` written out. */
module Formato {

  // ---------------------------------------------------------------------------
  // Decimal text of integers
  // ---------------------------------------------------------------------------

  function Digito(n: int): (c: char)
    requires 0 <= n < 10
    ensures '0' <= c <= '9' && c as int - '0' as int == n
  {
    ('0' as int + n) as char
  }

  predicate EsDecimal(s: string)
  {
    forall i :: 0 <= i < |s| ==> '0' <= s[i] <= '9'
  }

  /** The value of a string of decimal digits, most significant first (for
      other characters, their distance from `'0'` stands in for the digit). */
  function ValorDecimal(s: string): int
  {
    if s == [] then 0 else ValorDecimal(s[..|s| - 1]) * 10 + (s[|s| - 1] as int - '0' as int)
  }

  /** `String(n)` for `n >= 0`: digits without leading zeros ("0" for zero). */
  function Decimal(n: nat): (s: string)
    ensures |s| >= 1 && EsDecimal(s)
    ensures ValorDecimal(s) == n
    ensures |s| == 1 <==> n < 10
    ensures |s| <= 2 <==> n < 100
    ensures n >= 10 ==> s[0] != '0'
  {
    if n < 10 then [Digito(n)]
    else
      var s := Decimal(n / 10) + [Digito(n % 10)];
      assert s[..|s| - 1] == Decimal(n / 10);
      s
  }

  /** `String(n)` for any integer: a minus sign in front of the digits of a
      negative number. */
  function TextoEntero(n: int): (s: string)
    ensures |s| >= 1 && (s[0] == '-' <==> n < 0)
  {
    if n < 0 then "-" + Decimal(-n) else Decimal(n)
  }

  /** The text of an integer is its decimal digits, after a minus sign when negative. */
  lemma TextoEnteroValor(n: int)
    ensures n >= 0 ==> EsDecimal(TextoEntero(n)) && ValorDecimal(TextoEntero(n)) == n
    ensures n < 0 ==> var s := TextoEntero(n);
                      |s| >= 2 && EsDecimal(s[1..]) && ValorDecimal(s[1..]) == -n
  {
    if n < 0 {
      assert TextoEntero(n)[1..] == Decimal(-n);
    }
  }

  /** `s.padStart(2, '0')`: zeros in front up to two characters; never truncates. */
  function RellenarDos(s: string): (r: string)
    ensures |r| >= 2 && |r| >= |s|
    ensures |s| <= 2 ==> |r| == 2
    ensures |s| >= 2 ==> r == s
  {
    if |s| >= 2 then s else if |s| == 1 then "0" + s else "00"
  }

  /** Leading zeros do not change the value of a decimal string. */
  lemma {:induction false} ValorDecimalCeros(z: string, s: string)
    requires forall i :: 0 <= i < |z| ==> z[i] == '0'
    requires EsDecimal(s)
    ensures EsDecimal(z + s) && ValorDecimal(z + s) == ValorDecimal(s)
    decreases |s|
  {
    var zs := z + s;
    assert EsDecimal(zs) by {
      forall i | 0 <= i < |zs| ensures '0' <= zs[i] <= '9' {
        if i < |z| { assert zs[i] == z[i]; } else { assert zs[i] == s[i - |z|]; }
      }
    }
    if s == [] {
      assert zs == z;
      ValorDecimalSoloCeros(z);
    } else {
      var s' := s[..|s| - 1];
      assert zs[..|zs| - 1] == z + s';
      ValorDecimalCeros(z, s');
    }
  }

  lemma {:induction false} ValorDecimalSoloCeros(z: string)
    requires forall i :: 0 <= i < |z| ==> z[i] == '0'
    ensures EsDecimal(z) && ValorDecimal(z) == 0
  {
    if z != [] {
      ValorDecimalSoloCeros(z[..|z| - 1]);
    }
  }

  /** Padding a decimal string keeps it decimal and keeps its value. */
  lemma RellenarDosDecimal(s: string)
    requires EsDecimal(s)
    ensures |RellenarDos(s)| == if |s| >= 2 then |s| else 2
    ensures EsDecimal(RellenarDos(s)) && ValorDecimal(RellenarDos(s)) == ValorDecimal(s)
  {
    var z := if |s| >= 2 then "" else if |s| == 1 then "0" else "00";
    assert RellenarDos(s) == z + s;
    ValorDecimalCeros(z, s);
  }

  /** Padding only puts zeros in front: the original text is a suffix. */
  lemma RellenarDosCeros(s: string) returns (z: string)
    ensures forall i :: 0 <= i < |z| ==> z[i] == '0'
    ensures RellenarDos(s) == z + s
    ensures |z| == if |s| >= 2 then 0 else 2 - |s|
  {
    z := if |s| >= 2 then "" else if |s| == 1 then "0" else "00";
  }

  // ---------------------------------------------------------------------------
  // The formatter
  // ---------------------------------------------------------------------------

  /** JavaScript's `%`: the remainder takes the sign of the dividend. */
  function RestoJS(a: int, b: int): (r: int)
    requires b > 0
    ensures a >= 0 ==> 0 <= r < b && a == (a / b) * b + r
  {
    if a >= 0 then a % b else -((-a) % b)
  }

  /** `formatearDuracion(d)`. `Math.floor(d / 60)` is Dafny's `d / 60`, whose
      divisor is positive; the remainder is JavaScript's. */
  function FormatearDuracion(d: int): (r: string)
    ensures |r| >= 5
    ensures d >= 0 ==> |r| - 3 >= 2 && r[|r| - 3] == ':'
  {
    RellenarDos(TextoEntero(d / 60)) + ":" + RellenarDos(TextoEntero(RestoJS(d, 60)))
  }

  /** A number of minutes or seconds padded to two digits. */
  lemma RellenarDosNumero(n: nat)
    ensures var t := RellenarDos(Decimal(n));
            EsDecimal(t) && ValorDecimal(t) == n && |t| >= 2 && (|t| == 2 <==> n < 100)
  {
    RellenarDosDecimal(Decimal(n));
  }

  /** For `d >= 0` both JavaScript operations agree with Dafny's. */
  lemma FormatoNoNegativo(d: nat)
    ensures FormatearDuracion(d) == RellenarDos(Decimal(d / 60)) + ":" + RellenarDos(Decimal(d % 60))
    ensures d / 60 < 100 <==> d < 6000
  {
  }

  /** For a non-negative duration the result is the minutes `m` in at least
      two digits, a colon, and the seconds `s` in exactly two digits; the
      minutes take exactly two digits when `d < 6000`. */
  lemma FormatearDuracionCampos(d: nat) returns (m: string, s: string)
    ensures FormatearDuracion(d) == m + ":" + s
    ensures EsDecimal(m) && |m| >= 2 && ValorDecimal(m) == d / 60
    ensures EsDecimal(s) && |s| == 2 && ValorDecimal(s) == d % 60
    ensures |m| == 2 <==> d < 6000
  {
    FormatoNoNegativo(d);
    m := RellenarDos(Decimal(d / 60));
    s := RellenarDos(Decimal(d % 60));
    RellenarDosNumero(d / 60);
    RellenarDosNumero(d % 60);
  }

  /** Reads an `M:SS` text back as seconds. */
  function LeerDuracion(r: string): (d: int)
    requires |r| >= 3
  {
    ValorDecimal(r[..|r| - 3]) * 60 + ValorDecimal(r[|r| - 2..])
  }

  /** Reading a joined text takes the two fields apart again. */
  lemma LeerUnir(m: string, s: string)
    requires |s| == 2
    ensures LeerDuracion(m + ":" + s) == ValorDecimal(m) * 60 + ValorDecimal(s)
  {
    var r := m + ":" + s;
    assert r[..|r| - 3] == m;
    assert r[|r| - 2..] == s;
  }

  /** Reading the text back gives the duration: the format loses nothing. */
  lemma FormatearDuracionReversible(d: nat)
    ensures |FormatearDuracion(d)| >= 5
    ensures LeerDuracion(FormatearDuracion(d)) == d
  {
    var m, s := FormatearDuracionCampos(d);
    LeerUnir(m, s);
  }

  /** Two durations format alike only when they are equal. */
  lemma FormatearDuracionInyectiva(d1: nat, d2: nat)
    ensures FormatearDuracion(d1) == FormatearDuracion(d2) ==> d1 == d2
  {
    FormatearDuracionReversible(d1);
    FormatearDuracionReversible(d2);
  }

  /** 185 s is three minutes and five seconds. */
  lemma FormatearDuracionEjemplo185()
    ensures FormatearDuracion(185) == "03:05"
  {
    assert Decimal(3) == "3" && Decimal(5) == "5";
    assert RellenarDos("3") == "03" && RellenarDos("5") == "05";
  }

  lemma FormatearDuracionEjemploCero()
    ensures FormatearDuracion(0) == "00:00"
  {
    assert Decimal(0) == "0";
    assert RellenarDos("0") == "00";
  }

  /** The longest track, 7200 s, needs three digits of minutes. */
  lemma FormatearDuracionEjemploMaximo()
    ensures FormatearDuracion(7200) == "120:00"
  {
    assert 7200 / 60 == 120 && RestoJS(7200, 60) == 0;
    assert Decimal(1) == "1" && Decimal(0) == "0";
    assert Decimal(12) == Decimal(1) + "2" == "12";
    assert Decimal(120) == Decimal(12) + "0" == "120";
    assert TextoEntero(120) == "120" && TextoEntero(0) == "0";
    assert RellenarDos("120") == "120" && RellenarDos("0") == "00";
  }

  /** A negative input (which no valid track has) follows JavaScript's `%`. */
  lemma FormatearDuracionEjemploNegativo()
    ensures FormatearDuracion(-30) == "-1:-30"
  {
    assert RestoJS(-30, 60) == -30;
    assert Decimal(1) == "1" && Decimal(3) == "3" && Decimal(30) == "30";
    assert TextoEntero(-1) == "-1" && TextoEntero(-30) == "-30";
    assert RellenarDos("-1") == "-1" && RellenarDos("-30") == "-30";
  }
}
