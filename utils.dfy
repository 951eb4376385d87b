/** Helpers of `lib/utils.ts`: the modulo-11 check digits of the Brazilian
    taxpayer numbers (CPF for people, CNPJ for companies, as published by the
    Receita Federal), digit masks, half-hour slots, truncation, the swap between
    DD/MM/YYYY and the ISO 8601 extended calendar date YYYY-MM-DD (ISO 8601:2004
    section 4.1.2.2), the e-mail check and age in whole years. */
module Utils {
  import opened Text
  import opened Civil

  // ---------------------------------------------------------------------------
  // Check digits
  // ---------------------------------------------------------------------------

  /** Σ value(d[k]) * w(k) over the first `n` characters of `d`. */
  function WeightedSum(d: string, n: nat, w: int -> int): int
    requires n <= |d|
  {
    if n == 0 then 0 else WeightedSum(d, n - 1, w) + DigitValue(d[n - 1]) * w(n - 1)
  }

  /** Characters after the first `n` do not enter the sum. */
  lemma {:induction false} WeightedSumPrefix(d: string, e: string, n: nat, w: int -> int)
    requires n <= |d|
    ensures WeightedSum(d + e, n, w) == WeightedSum(d, n, w)
  {
    if n > 0 {
      WeightedSumPrefix(d, e, n - 1, w);
      assert (d + e)[n - 1] == d[n - 1];
    }
  }

  /** `/^(\d)\1+$/` on a digit string: at least two digits, all equal. */
  predicate AllSame(d: string)
  {
    |d| >= 2 && forall k :: 0 <= k < |d| ==> d[k] == d[0]
  }

  /** CPF weights: 10 down to 2 for the first check digit, 11 down to 2 for the second. */
  function CpfWeight(top: int): int -> int
  {
    (k: int) => top - k
  }

  /** A CPF check digit: 11 - s mod 11, with 10 and 11 mapped to 0. */
  function CpfDigit(soma: int): (r: int)
    ensures 0 <= r <= 9
  {
    var resto := 11 - soma % 11;
    if resto == 10 || resto == 11 then 0 else resto
  }

  /** What `validarCPF` accepts: 11 digits once non-digits are dropped, not all equal,
      whose last two digits are the check digits of the first nine and first ten. */
  predicate CpfValid(cpf: string)
  {
    var d := OnlyDigits(cpf);
    |d| == 11 && !AllSame(d)
    && CpfDigit(WeightedSum(d, 9, CpfWeight(10))) == DigitValue(d[9])
    && CpfDigit(WeightedSum(d, 10, CpfWeight(11))) == DigitValue(d[10])
  }

  /** `validarCPF`, with its two summing loops. */
  method ValidarCPF(cpf: string) returns (ok: bool)
    ensures ok == CpfValid(cpf)
  {
    var cpfLimpo := OnlyDigits(cpf);
    if |cpfLimpo| != 11 {
      return false;
    }
    if AllSame(cpfLimpo) {
      return false;
    }
    var soma := 0;
    var i := 0;
    while i < 9
      invariant 0 <= i <= 9
      invariant soma == WeightedSum(cpfLimpo, i, CpfWeight(10))
    {
      soma := soma + DigitValue(cpfLimpo[i]) * (10 - i);
      i := i + 1;
    }
    var resto := 11 - soma % 11;
    var digitoVerificador1 := if resto == 10 || resto == 11 then 0 else resto;
    if digitoVerificador1 != DigitValue(cpfLimpo[9]) {
      return false;
    }
    soma := 0;
    i := 0;
    while i < 10
      invariant 0 <= i <= 10
      invariant soma == WeightedSum(cpfLimpo, i, CpfWeight(11))
    {
      soma := soma + DigitValue(cpfLimpo[i]) * (11 - i);
      i := i + 1;
    }
    resto := 11 - soma % 11;
    var digitoVerificador2 := if resto == 10 || resto == 11 then 0 else resto;
    if digitoVerificador2 != DigitValue(cpfLimpo[10]) {
      return false;
    }
    return true;
  }

  /** The digit character of a value 0..9. */
  function DigitChar(v: int): (c: char)
    requires 0 <= v <= 9
    ensures IsDigit(c) && DigitValue(c) == v
  {
    ('0' as int + v) as char
  }

  /** Any nine base digits, followed by their two check digits, make a CPF the check
      accepts, unless all eleven digits come out equal. */
  lemma CpfCompletion(base: string)
    requires |base| == 9 && forall k :: 0 <= k < 9 ==> IsDigit(base[k])
    ensures var c1 := DigitChar(CpfDigit(WeightedSum(base, 9, CpfWeight(10))));
      var c2 := DigitChar(CpfDigit(WeightedSum(base + [c1], 10, CpfWeight(11))));
      var cpf := base + [c1, c2];
      !AllSame(cpf) ==> CpfValid(cpf)
  {
    var c1 := DigitChar(CpfDigit(WeightedSum(base, 9, CpfWeight(10))));
    var c2 := DigitChar(CpfDigit(WeightedSum(base + [c1], 10, CpfWeight(11))));
    var cpf := base + [c1, c2];
    OnlyDigitsOfDigits(cpf);
    WeightedSumPrefix(base, [c1, c2], 9, CpfWeight(10));
    assert cpf == (base + [c1]) + [c2];
    WeightedSumPrefix(base + [c1], [c2], 10, CpfWeight(11));
  }

  /** Σ w(k) over k < n. */
  function WeightTotal(n: nat, w: int -> int): int
  {
    if n == 0 then 0 else WeightTotal(n - 1, w) + w(n - 1)
  }

  lemma {:induction false} WeightedSumOfRepeat(c: char, m: nat, n: nat, w: int -> int)
    requires n <= m
    ensures WeightedSum(Repeat(c, m), n, w) == DigitValue(c) * WeightTotal(n, w)
  {
    if n > 0 {
      WeightedSumOfRepeat(c, m, n - 1, w);
      var v := DigitValue(c);
      assert v * WeightTotal(n - 1, w) + v * w(n - 1) == v * (WeightTotal(n - 1, w) + w(n - 1));
    }
  }

  /** The CPF weights add up to 54 (ten down to two) and 65 (eleven down to two). */
  lemma CpfWeightTotals()
    ensures WeightTotal(9, CpfWeight(10)) == 54
    ensures WeightTotal(10, CpfWeight(11)) == 65
  {
    assert WeightTotal(5, CpfWeight(10)) == 40;
    assert WeightTotal(5, CpfWeight(11)) == 45;
  }

  /** A digit repeated under those weights gets itself back as check digit. */
  lemma RepeatedCheckDigit(v: int)
    requires 0 <= v <= 9
    ensures CpfDigit(v * 54) == v && CpfDigit(v * 65) == v
  {
    if v == 0 {} else if v == 1 {} else if v == 2 {} else if v == 3 {} else if v == 4 {}
    else if v == 5 {} else if v == 6 {} else if v == 7 {} else if v == 8 {} else {}
  }

  /** Eleven equal digits always pass both digit checks, so only the equal-digits rule
      refuses them. */
  lemma RepeatedDigitsPassTheSums(c: char)
    requires IsDigit(c)
    ensures var d := Repeat(c, 11);
      CpfDigit(WeightedSum(d, 9, CpfWeight(10))) == DigitValue(d[9])
      && CpfDigit(WeightedSum(d, 10, CpfWeight(11))) == DigitValue(d[10])
      && !CpfValid(d)
  {
    var d := Repeat(c, 11);
    WeightedSumOfRepeat(c, 11, 9, CpfWeight(10));
    WeightedSumOfRepeat(c, 11, 10, CpfWeight(11));
    CpfWeightTotals();
    RepeatedCheckDigit(DigitValue(c));
    OnlyDigitsOfDigits(d);
    assert AllSame(d);
  }

  /** CNPJ weights as `validarCNPJ` steps them: start at `tamanho - 7`, count down,
      and jump back to 9 below 2. */
  function CnpjWeight(tamanho: int): int -> int
  {
    (k: int) => var w := tamanho - 7 - k; if w >= 2 then w else w + 8
  }

  /** A CNPJ check digit: 0 when s mod 11 < 2, else 11 - s mod 11. */
  function CnpjDigit(soma: int): (r: int)
    ensures 0 <= r <= 9
  {
    if soma % 11 < 2 then 0 else 11 - soma % 11
  }

  /** What `validarCNPJ` accepts: 14 digits, not all equal, the last two being the check
      digits of the first twelve and the first thirteen. */
  predicate CnpjValid(cnpj: string)
  {
    var d := OnlyDigits(cnpj);
    |d| == 14 && !AllSame(d)
    && CnpjDigit(WeightedSum(d, 12, CnpjWeight(12))) == DigitValue(d[12])
    && CnpjDigit(WeightedSum(d, 13, CnpjWeight(13))) == DigitValue(d[13])
  }

  /** One summing loop of `validarCNPJ` over `numeros`, with its stepped weight `pos`. */
  method CnpjSum(numeros: string) returns (soma: int)
    requires |numeros| >= 9
    ensures soma == WeightedSum(numeros, |numeros|, CnpjWeight(|numeros|))
  {
    var tamanho := |numeros|;
    soma := 0;
    var pos := tamanho - 7;
    var i := tamanho;
    while i >= 1
      invariant 0 <= i <= tamanho
      invariant soma == WeightedSum(numeros, tamanho - i, CnpjWeight(tamanho))
      invariant i >= 1 ==> pos == CnpjWeight(tamanho)(tamanho - i)
    {
      soma := soma + DigitValue(numeros[tamanho - i]) * pos;
      pos := pos - 1;
      if pos < 2 {
        pos := 9;
      }
      i := i - 1;
    }
  }

  /** `validarCNPJ`. */
  method ValidarCNPJ(cnpj: string) returns (ok: bool)
    ensures ok == CnpjValid(cnpj)
  {
    var cnpjLimpo := OnlyDigits(cnpj);
    if |cnpjLimpo| != 14 {
      return false;
    }
    if AllSame(cnpjLimpo) {
      return false;
    }
    var tamanho := |cnpjLimpo| - 2;
    var numeros := cnpjLimpo[..tamanho];
    var digitos := cnpjLimpo[tamanho..];
    var soma := CnpjSum(numeros);
    assert cnpjLimpo == numeros + digitos;
    WeightedSumPrefix(numeros, digitos, 12, CnpjWeight(12));
    var resultado := if soma % 11 < 2 then 0 else 11 - soma % 11;
    if resultado != DigitValue(digitos[0]) {
      return false;
    }
    tamanho := tamanho + 1;
    numeros := cnpjLimpo[..tamanho];
    soma := CnpjSum(numeros);
    assert cnpjLimpo == numeros + cnpjLimpo[tamanho..];
    WeightedSumPrefix(numeros, cnpjLimpo[tamanho..], 13, CnpjWeight(13));
    resultado := if soma % 11 < 2 then 0 else 11 - soma % 11;
    if resultado != DigitValue(digitos[1]) {
      return false;
    }
    return true;
  }

  /** One more term of a weighted sum. */
  lemma SumStep(d: string, n: nat, w: int -> int, before: int, after: int)
    requires n < |d| && WeightedSum(d, n, w) == before
    requires after == before + DigitValue(d[n]) * w(n)
    ensures WeightedSum(d, n + 1, w) == after
  {
  }

  lemma CpfFirstSumStart(d: string)
    requires d == "52998224725"
    ensures WeightedSum(d, 4, CpfWeight(10)) == 203
  {
    SumStep(d, 0, CpfWeight(10), 0, 50);
    SumStep(d, 1, CpfWeight(10), 50, 68);
    SumStep(d, 2, CpfWeight(10), 68, 140);
    SumStep(d, 3, CpfWeight(10), 140, 203);
  }

  lemma CpfFirstSum(d: string)
    requires d == "52998224725"
    ensures WeightedSum(d, 9, CpfWeight(10)) == 295
  {
    CpfFirstSumStart(d);
    SumStep(d, 4, CpfWeight(10), 203, 251);
    SumStep(d, 5, CpfWeight(10), 251, 261);
    SumStep(d, 6, CpfWeight(10), 261, 269);
    SumStep(d, 7, CpfWeight(10), 269, 281);
    SumStep(d, 8, CpfWeight(10), 281, 295);
  }

  lemma CpfSecondSumStart(d: string)
    requires d == "52998224725"
    ensures WeightedSum(d, 5, CpfWeight(11)) == 284
  {
    SumStep(d, 0, CpfWeight(11), 0, 55);
    SumStep(d, 1, CpfWeight(11), 55, 75);
    SumStep(d, 2, CpfWeight(11), 75, 156);
    SumStep(d, 3, CpfWeight(11), 156, 228);
    SumStep(d, 4, CpfWeight(11), 228, 284);
  }

  lemma CpfSecondSum(d: string)
    requires d == "52998224725"
    ensures WeightedSum(d, 10, CpfWeight(11)) == 347
  {
    CpfSecondSumStart(d);
    SumStep(d, 5, CpfWeight(11), 284, 296);
    SumStep(d, 6, CpfWeight(11), 296, 306);
    SumStep(d, 7, CpfWeight(11), 306, 322);
    SumStep(d, 8, CpfWeight(11), 322, 343);
    SumStep(d, 9, CpfWeight(11), 343, 347);
  }

  lemma CnpjFirstSumStart(d: string)
    requires d == "11222333000181"
    ensures WeightedSum(d, 6, CnpjWeight(12)) == 61
  {
    SumStep(d, 0, CnpjWeight(12), 0, 5);
    SumStep(d, 1, CnpjWeight(12), 5, 9);
    SumStep(d, 2, CnpjWeight(12), 9, 15);
    SumStep(d, 3, CnpjWeight(12), 15, 19);
    SumStep(d, 4, CnpjWeight(12), 19, 37);
    SumStep(d, 5, CnpjWeight(12), 37, 61);
  }

  lemma CnpjFirstSum(d: string)
    requires d == "11222333000181"
    ensures WeightedSum(d, 12, CnpjWeight(12)) == 102
  {
    CnpjFirstSumStart(d);
    SumStep(d, 6, CnpjWeight(12), 61, 82);
    SumStep(d, 7, CnpjWeight(12), 82, 100);
    SumStep(d, 8, CnpjWeight(12), 100, 100);
    SumStep(d, 9, CnpjWeight(12), 100, 100);
    SumStep(d, 10, CnpjWeight(12), 100, 100);
    SumStep(d, 11, CnpjWeight(12), 100, 102);
  }

  lemma CnpjSecondSumStart(d: string)
    requires d == "11222333000181"
    ensures WeightedSum(d, 6, CnpjWeight(13)) == 56
  {
    SumStep(d, 0, CnpjWeight(13), 0, 6);
    SumStep(d, 1, CnpjWeight(13), 6, 11);
    SumStep(d, 2, CnpjWeight(13), 11, 19);
    SumStep(d, 3, CnpjWeight(13), 19, 25);
    SumStep(d, 4, CnpjWeight(13), 25, 29);
    SumStep(d, 5, CnpjWeight(13), 29, 56);
  }

  lemma CnpjSecondSum(d: string)
    requires d == "11222333000181"
    ensures WeightedSum(d, 13, CnpjWeight(13)) == 120
  {
    CnpjSecondSumStart(d);
    SumStep(d, 6, CnpjWeight(13), 56, 80);
    SumStep(d, 7, CnpjWeight(13), 80, 101);
    SumStep(d, 8, CnpjWeight(13), 101, 101);
    SumStep(d, 9, CnpjWeight(13), 101, 101);
    SumStep(d, 10, CnpjWeight(13), 101, 101);
    SumStep(d, 11, CnpjWeight(13), 101, 104);
    SumStep(d, 12, CnpjWeight(13), 104, 120);
  }

  /** CPF 529.982.247-25 passes the check. */
  lemma KnownValidCpf(d: string)
    requires d == "52998224725"
    ensures CpfValid(d)
  {
    OnlyDigitsOfDigits(d);
    CpfFirstSum(d);
    CpfSecondSum(d);
    assert d[1] != d[0];
  }

  /** CNPJ 11.222.333/0001-81 passes the check. */
  lemma KnownValidCnpj(d: string)
    requires d == "11222333000181"
    ensures CnpjValid(d)
  {
    OnlyDigitsOfDigits(d);
    CnpjFirstSum(d);
    CnpjSecondSum(d);
    assert d[2] != d[0];
  }

  // ---------------------------------------------------------------------------
  // E-mail
  // ---------------------------------------------------------------------------

  /** One part of an address: non-empty, without white space and without `@`. */
  predicate Part(x: string)
  {
    |x| > 0 && forall k :: 0 <= k < |x| ==> !IsSpace(x[k]) && x[k] != '@'
  }

  /** The accepted shape, `local@A.B` with three parts. */
  ghost predicate EmailShape(s: string)
  {
    exists l: string, a: string, b: string :: s == l + "@" + a + "." + b && Part(l) && Part(a) && Part(b)
  }

  /** `validarEmail` (the checkout route's `isValidEmail` is the same expression): no white space at all, exactly one `@`, not first, and a `.` after it
      with at least one character on either side. */
  predicate IsValidEmail(s: string)
  {
    (forall k :: 0 <= k < |s| ==> !IsSpace(s[k]))
    && exists at :: 0 < at < |s| && s[at] == '@'
         && (forall k :: 0 <= k < |s| && k != at ==> s[k] != '@')
         && exists d :: at + 1 < d < |s| - 1 && s[d] == '.'
  }

  /** The check accepts exactly the addresses of the shape `local@A.B`. */
  lemma IsValidEmailMeansShape(s: string)
    ensures IsValidEmail(s) <==> EmailShape(s)
  {
    if IsValidEmail(s) {
      var at :| 0 < at < |s| && s[at] == '@' && (forall k :: 0 <= k < |s| && k != at ==> s[k] != '@')
                && exists d :: at + 1 < d < |s| - 1 && s[d] == '.';
      var d :| at + 1 < d < |s| - 1 && s[d] == '.';
      var l, a, b := s[..at], s[at + 1..d], s[d + 1..];
      assert s == l + "@" + a + "." + b;
      assert Part(l) && Part(a) && Part(b) by {
        forall k | 0 <= k < |a| ensures a[k] == s[at + 1 + k] { }
        forall k | 0 <= k < |b| ensures b[k] == s[d + 1 + k] { }
      }
    }
    if EmailShape(s) {
      var l: string, a: string, b: string :| s == l + "@" + a + "." + b && Part(l) && Part(a) && Part(b);
      ShapeIsValid(l, a, b);
    }
  }

  lemma ShapeIsValid(l: string, a: string, b: string)
    requires Part(l) && Part(a) && Part(b)
    ensures IsValidEmail(l + "@" + a + "." + b)
  {
    var s := l + "@" + a + "." + b;
    var at, d := |l|, |l| + 1 + |a|;
    forall k | 0 <= k < |s|
      ensures !IsSpace(s[k]) && (k != at && k != d ==> s[k] != '@')
      ensures k != at ==> s[k] != '@'
    {
      if k < at { assert s[k] == l[k]; }
      else if at < k < d { assert s[k] == a[k - at - 1]; }
      else if k > d { assert s[k] == b[k - d - 1]; }
    }
    assert s[at] == '@' && s[d] == '.';
  }

  // ---------------------------------------------------------------------------
  // Digit masks
  // ---------------------------------------------------------------------------

  predicate AllDigits(s: string)
  {
    forall k :: 0 <= k < |s| ==> IsDigit(s[k])
  }

  /** `formatarCPF`: the first eleven digits as ddd.ddd.ddd-dd, any further digits after them. */
  function FormatarCPF(cpf: string): string
  {
    var d := OnlyDigits(cpf);
    if |d| >= 11 then d[..3] + "." + d[3..6] + "." + d[6..9] + "-" + d[9..11] + d[11..] else d
  }

  /** `formatarCEP`: ddddd-ddd. */
  function FormatarCEP(cep: string): string
  {
    var d := OnlyDigits(cep);
    if |d| >= 8 then d[..5] + "-" + d[5..8] + d[8..] else d
  }

  /** `formatarCNPJ`: dd.ddd.ddd/dddd-dd. */
  function FormatarCNPJ(cnpj: string): string
  {
    var d := OnlyDigits(cnpj);
    if |d| >= 14 then d[..2] + "." + d[2..5] + "." + d[5..8] + "/" + d[8..12] + "-" + d[12..14] + d[14..] else d
  }

  /** `formatarTelefone`: (dd) ddddd-dddd for mobiles, (dd) dddd-dddd for land lines, else bare digits. */
  function FormatarTelefone(telefone: string): string
  {
    var d := OnlyDigits(telefone);
    if |d| == 11 then "(" + d[..2] + ") " + d[2..7] + "-" + d[7..11]
    else if |d| == 10 then "(" + d[..2] + ") " + d[2..6] + "-" + d[6..10]
    else d
  }

  /** A separator between digit groups disappears when the digits are read back. */
  lemma DigitsThenSeparator(a: string, sep: string, rest: string)
    requires AllDigits(a) && forall k :: 0 <= k < |sep| ==> !IsDigit(sep[k])
    ensures OnlyDigits(a + sep + rest) == a + OnlyDigits(rest)
  {
    var x := a + sep;
    OnlyDigitsAppend(x, rest);
    OnlyDigitsAppend(a, sep);
    OnlyDigitsOfDigits(a);
    NoDigits(sep);
    assert OnlyDigits(x) == a;
  }

  lemma {:induction false} NoDigits(s: string)
    requires forall k :: 0 <= k < |s| ==> !IsDigit(s[k])
    ensures OnlyDigits(s) == []
  {
    if s != [] {
      NoDigits(s[1..]);
    }
  }

  /** A separator adds no digits. */
  lemma DropSeparator(x: string, sep: string)
    requires forall k :: 0 <= k < |sep| ==> !IsDigit(sep[k])
    ensures OnlyDigits(x + sep) == OnlyDigits(x)
  {
    OnlyDigitsAppend(x, sep);
    NoDigits(sep);
  }

  /** A digit group adds exactly itself. */
  lemma AddGroup(x: string, g: string)
    requires AllDigits(g)
    ensures OnlyDigits(x + g) == OnlyDigits(x) + g
  {
    OnlyDigitsAppend(x, g);
    OnlyDigitsOfDigits(g);
  }

  /** A slice of a digit string is a digit string. */
  lemma SliceDigits(d: string, i: int, j: int)
    requires AllDigits(d) && 0 <= i <= j <= |d|
    ensures AllDigits(d[i..j])
  {
  }

  /** The CPF mask over a digit string reads back as that string. */
  lemma CpfMaskOfDigits(d: string)
    requires AllDigits(d) && |d| >= 11
    ensures OnlyDigits(d[..3] + "." + d[3..6] + "." + d[6..9] + "-" + d[9..11] + d[11..]) == d
  {
    SliceDigits(d, 0, 3);
    SliceDigits(d, 3, 6);
    SliceDigits(d, 6, 9);
    SliceDigits(d, 9, 11);
    SliceDigits(d, 11, |d|);
    AddGroup([], d[..3]);
    assert [] + d[..3] == d[..3];
    DropSeparator(d[..3], ".");
    AddGroup(d[..3] + ".", d[3..6]);
    DropSeparator(d[..3] + "." + d[3..6], ".");
    AddGroup(d[..3] + "." + d[3..6] + ".", d[6..9]);
    DropSeparator(d[..3] + "." + d[3..6] + "." + d[6..9], "-");
    AddGroup(d[..3] + "." + d[3..6] + "." + d[6..9] + "-", d[9..11]);
    AddGroup(d[..3] + "." + d[3..6] + "." + d[6..9] + "-" + d[9..11], d[11..]);
    assert d[..3] + d[3..6] + d[6..9] + d[9..11] + d[11..] == d;
  }

  /** The CEP mask over a digit string reads back as that string. */
  lemma CepMaskOfDigits(d: string)
    requires AllDigits(d) && |d| >= 8
    ensures OnlyDigits(d[..5] + "-" + d[5..8] + d[8..]) == d
  {
    SliceDigits(d, 0, 5);
    SliceDigits(d, 5, 8);
    SliceDigits(d, 8, |d|);
    OnlyDigitsOfDigits(d[..5]);
    DropSeparator(d[..5], "-");
    AddGroup(d[..5] + "-", d[5..8]);
    AddGroup(d[..5] + "-" + d[5..8], d[8..]);
    assert d[..5] + d[5..8] + d[8..] == d;
  }

  /** The CNPJ mask over a digit string reads back as that string. */
  lemma CnpjMaskOfDigits(d: string)
    requires AllDigits(d) && |d| >= 14
    ensures OnlyDigits(d[..2] + "." + d[2..5] + "." + d[5..8] + "/" + d[8..12] + "-" + d[12..14] + d[14..]) == d
  {
    SliceDigits(d, 0, 2);
    SliceDigits(d, 2, 5);
    SliceDigits(d, 5, 8);
    SliceDigits(d, 8, 12);
    SliceDigits(d, 12, 14);
    SliceDigits(d, 14, |d|);
    OnlyDigitsOfDigits(d[..2]);
    DropSeparator(d[..2], ".");
    AddGroup(d[..2] + ".", d[2..5]);
    DropSeparator(d[..2] + "." + d[2..5], ".");
    AddGroup(d[..2] + "." + d[2..5] + ".", d[5..8]);
    DropSeparator(d[..2] + "." + d[2..5] + "." + d[5..8], "/");
    AddGroup(d[..2] + "." + d[2..5] + "." + d[5..8] + "/", d[8..12]);
    DropSeparator(d[..2] + "." + d[2..5] + "." + d[5..8] + "/" + d[8..12], "-");
    AddGroup(d[..2] + "." + d[2..5] + "." + d[5..8] + "/" + d[8..12] + "-", d[12..14]);
    AddGroup(d[..2] + "." + d[2..5] + "." + d[5..8] + "/" + d[8..12] + "-" + d[12..14], d[14..]);
    assert d[..2] + d[2..5] + d[5..8] + d[8..12] + d[12..14] + d[14..] == d;
  }

  /** The telephone mask over `cut + 4` digits reads back as those digits. */
  lemma TelefoneMaskOfDigits(d: string, cut: int)
    requires AllDigits(d) && (cut == 6 || cut == 7) && |d| == cut + 4
    ensures OnlyDigits("(" + d[..2] + ") " + d[2..cut] + "-" + d[cut..cut + 4]) == d
  {
    SliceDigits(d, 0, 2);
    SliceDigits(d, 2, cut);
    SliceDigits(d, cut, cut + 4);
    NoDigits("(");
    AddGroup("(", d[..2]);
    DropSeparator("(" + d[..2], ") ");
    AddGroup("(" + d[..2] + ") ", d[2..cut]);
    DropSeparator("(" + d[..2] + ") " + d[2..cut], "-");
    AddGroup("(" + d[..2] + ") " + d[2..cut] + "-", d[cut..cut + 4]);
    assert d[..2] + d[2..cut] + d[cut..cut + 4] == d;
  }

  /** The masks only add separators: reading the digits back gives the digits put in. */
  lemma CpfMaskKeepsDigits(s: string)
    ensures OnlyDigits(FormatarCPF(s)) == OnlyDigits(s)
  {
    OnlyDigitsIdempotent(s);
    if |OnlyDigits(s)| >= 11 {
      CpfMaskOfDigits(OnlyDigits(s));
    }
  }

  lemma CepMaskKeepsDigits(s: string)
    ensures OnlyDigits(FormatarCEP(s)) == OnlyDigits(s)
  {
    OnlyDigitsIdempotent(s);
    if |OnlyDigits(s)| >= 8 {
      CepMaskOfDigits(OnlyDigits(s));
    }
  }

  lemma CnpjMaskKeepsDigits(s: string)
    ensures OnlyDigits(FormatarCNPJ(s)) == OnlyDigits(s)
  {
    OnlyDigitsIdempotent(s);
    if |OnlyDigits(s)| >= 14 {
      CnpjMaskOfDigits(OnlyDigits(s));
    }
  }

  lemma TelefoneMaskKeepsDigits(s: string)
    ensures OnlyDigits(FormatarTelefone(s)) == OnlyDigits(s)
  {
    var d := OnlyDigits(s);
    OnlyDigitsIdempotent(s);
    if |d| == 11 {
      TelefoneMaskOfDigits(d, 7);
    } else if |d| == 10 {
      TelefoneMaskOfDigits(d, 6);
    }
  }

  /** Formatting never changes the verdict of the check-digit validators. */
  lemma ValidationIgnoresMasks(s: string)
    ensures CpfValid(FormatarCPF(s)) == CpfValid(s)
    ensures CnpjValid(FormatarCNPJ(s)) == CnpjValid(s)
  {
    CpfMaskKeepsDigits(s);
    CnpjMaskKeepsDigits(s);
  }

  /** Exactly eleven digits format as ddd.ddd.ddd-dd. */
  lemma FormatarCPFShape(s: string)
    requires |OnlyDigits(s)| == 11
    ensures var r := FormatarCPF(s);
      |r| == 14 && r[3] == '.' && r[7] == '.' && r[11] == '-'
      && forall k :: 0 <= k < 14 && k != 3 && k != 7 && k != 11 ==> IsDigit(r[k])
  {
  }

  /** Eleven digits give (dd) ddddd-dddd, ten give (dd) dddd-dddd, anything else the bare digits. */
  lemma FormatarTelefoneShape(s: string)
    ensures var d, r := OnlyDigits(s), FormatarTelefone(s);
      (|d| == 11 ==> |r| == 15 && r[0] == '(' && r[3] == ')' && r[4] == ' ' && r[10] == '-')
      && (|d| == 10 ==> |r| == 14 && r[0] == '(' && r[3] == ')' && r[4] == ' ' && r[9] == '-')
      && (|d| != 10 && |d| != 11 ==> r == d)
  {
  }

  // ---------------------------------------------------------------------------
  // Half-hour slots
  // ---------------------------------------------------------------------------

  /** The HH:MM label of the minute `m` of the day. */
  function Slot(m: nat): string
    requires m < 6000
  {
    Pad2(m / 60) + ":" + Pad2(m % 60)
  }

  /** Reading an HH:MM label back as minutes of the day. */
  function SlotMinutes(s: string): int
    requires |s| >= 5
  {
    (DigitValue(s[0]) * 10 + DigitValue(s[1])) * 60 + DigitValue(s[3]) * 10 + DigitValue(s[4])
  }

  lemma SlotRoundTrip(m: nat)
    requires m < 6000
    ensures |Slot(m)| == 5 && Slot(m)[2] == ':' && SlotMinutes(Slot(m)) == m
  {
    var h, r := Pad2(m / 60), Pad2(m % 60);
    assert Slot(m)[0] == h[0] && Slot(m)[1] == h[1] && Slot(m)[3] == r[0] && Slot(m)[4] == r[1];
  }

  /** Labels of different minutes differ, and their order is the order of the minutes. */
  lemma SlotsOrdered(m1: nat, m2: nat)
    requires m1 < m2 < 6000
    ensures SlotMinutes(Slot(m1)) < SlotMinutes(Slot(m2)) && Slot(m1) != Slot(m2)
  {
    SlotRoundTrip(m1);
    SlotRoundTrip(m2);
  }

  /** The label of hour `h`, minute `m` is their two-digit forms around a colon. */
  lemma SlotOfHourAndMinute(h: nat, m: nat)
    requires h < 100 && m < 60
    ensures Slot(h * 60 + m) == Pad2(h) + ":" + Pad2(m)
  {
    assert (h * 60 + m) / 60 == h && (h * 60 + m) % 60 == m;
  }

  /** `gerarHorarios`: 08:00 to 17:30 every 30 minutes. */
  method GerarHorarios() returns (horarios: seq<string>)
    ensures |horarios| == 20
    ensures forall k :: 0 <= k < 20 ==> horarios[k] == Slot(480 + 30 * k)
  {
    horarios := [];
    var hora := 8;
    while hora < 18
      invariant 8 <= hora <= 18 && |horarios| == 2 * (hora - 8)
      invariant forall k :: 0 <= k < |horarios| ==> horarios[k] == Slot(480 + 30 * k)
    {
      var minuto := 0;
      while minuto < 60
        invariant minuto == 0 || minuto == 30 || minuto == 60
        invariant |horarios| == 2 * (hora - 8) + minuto / 30
        invariant forall k :: 0 <= k < |horarios| ==> horarios[k] == Slot(480 + 30 * k)
      {
        assert 480 + 30 * |horarios| == hora * 60 + minuto;
        SlotOfHourAndMinute(hora, minuto);
        horarios := horarios + [Pad2(hora) + ":" + Pad2(minuto)];
        minuto := minuto + 30;
      }
      hora := hora + 1;
    }
  }

  lemma FirstAndLastSlot()
    ensures Slot(480) == "08:00" && Slot(1050) == "17:30"
  {
    SlotOfHourAndMinute(8, 0);
    SlotOfHourAndMinute(17, 30);
  }

  /** The slots run from 08:00 to 17:30, strictly increasing. */
  lemma HorariosBounds()
    ensures Slot(480) == "08:00" && Slot(480 + 30 * 19) == "17:30"
    ensures forall i, j :: 0 <= i < j < 20 ==> SlotMinutes(Slot(480 + 30 * i)) < SlotMinutes(Slot(480 + 30 * j))
  {
    FirstAndLastSlot();
    forall i, j | 0 <= i < j < 20
      ensures SlotMinutes(Slot(480 + 30 * i)) < SlotMinutes(Slot(480 + 30 * j))
    {
      SlotsOrdered(480 + 30 * i, 480 + 30 * j);
    }
  }

  // ---------------------------------------------------------------------------
  // Truncation
  // ---------------------------------------------------------------------------

  /** `s.slice(0, end)`: a negative end counts from the back; the cut is clamped to the string. */
  function SliceTo(s: string, end: int): string
  {
    if end < 0 then (if |s| + end <= 0 then [] else s[..|s| + end])
    else if end >= |s| then s
    else s[..end]
  }

  /** `truncarTexto`. */
  function Truncar(texto: string, tamanhoMaximo: int): string
  {
    if |texto| <= tamanhoMaximo then texto else SliceTo(texto, tamanhoMaximo) + "..."
  }

  /** Short texts are kept; longer ones are cut to `max` characters and get `...`. */
  lemma TruncarCases(texto: string, max: int)
    ensures |texto| <= max ==> Truncar(texto, max) == texto
    ensures 0 <= max < |texto| ==>
      Truncar(texto, max) == texto[..max] + "..." && |Truncar(texto, max)| == max + 3
    ensures max < 0 ==>
      Truncar(texto, max) == (if |texto| + max <= 0 then "..." else texto[..|texto| + max] + "...")
  {
  }

  // ---------------------------------------------------------------------------
  // DD/MM/YYYY and YYYY-MM-DD
  // ---------------------------------------------------------------------------

  /** `s.split(sep)` on one character. */
  function Split(s: string, sep: char): (parts: seq<string>)
    ensures |parts| >= 1
    ensures forall i :: 0 <= i < |parts| ==> sep !in parts[i]
  {
    if s == [] then [""]
    else
      var rest := Split(s[1..], sep);
      if s[0] == sep then [""] + rest
      else
        assert sep !in rest[0];
        [[s[0]] + rest[0]] + rest[1..]
  }

  /** `parts.join(sep)`. */
  function Join(parts: seq<string>, sep: char): string
    requires |parts| >= 1
  {
    if |parts| == 1 then parts[0] else parts[0] + [sep] + Join(parts[1..], sep)
  }

  lemma {:induction false} JoinSplit(s: string, sep: char)
    ensures Join(Split(s, sep), sep) == s
  {
    if s != [] {
      JoinSplit(s[1..], sep);
      var rest := Split(s[1..], sep);
      if s[0] != sep && |rest| > 1 {
        assert Join(Split(s, sep), sep) == [s[0]] + rest[0] + [sep] + Join(rest[1..], sep);
      }
    }
  }

  lemma {:induction false} SplitPrefix(a: string, t: string, sep: char)
    requires sep !in a
    ensures Split(a + t, sep) == [a + Split(t, sep)[0]] + Split(t, sep)[1..]
  {
    if a != [] {
      assert (a + t)[1..] == a[1..] + t;
      SplitPrefix(a[1..], t, sep);
      assert [a[0]] + (a[1..] + Split(t, sep)[0]) == a + Split(t, sep)[0];
    } else {
      assert a + t == t;
      var p := Split(t, sep);
      assert p == [p[0]] + p[1..];
      assert a + p[0] == p[0];
    }
  }

  lemma {:induction false} SplitJoin(parts: seq<string>, sep: char)
    requires |parts| >= 1 && forall i :: 0 <= i < |parts| ==> sep !in parts[i]
    ensures Split(Join(parts, sep), sep) == parts
  {
    if |parts| == 1 {
      SplitPrefix(parts[0], [], sep);
      assert parts[0] + [] == parts[0];
    } else {
      var rest := Join(parts[1..], sep);
      SplitJoin(parts[1..], sep);
      assert Join(parts, sep) == parts[0] + ([sep] + rest);
      SplitPrefix(parts[0], [sep] + rest, sep);
      assert ([sep] + rest)[1..] == rest && ([sep] + rest)[0] == sep;
      assert Split([sep] + rest, sep) == [""] + parts[1..];
      assert parts[0] + "" == parts[0];
      assert parts == [parts[0]] + parts[1..];
    }
  }

  /** Split on `from`; three parts come back reversed and joined with `to`, anything else unchanged. */
  function SwapDate(data: string, from: char, to: char): string
  {
    var partes := Split(data, from);
    if |partes| != 3 then data else partes[2] + [to] + partes[1] + [to] + partes[0]
  }

  /** `formatarDataParaISO`: DD/MM/YYYY to YYYY-MM-DD. */
  function FormatarDataParaISO(data: string): string
  {
    SwapDate(data, '/', '-')
  }

  /** `formatarDataDeISO`: YYYY-MM-DD to DD/MM/YYYY. */
  function FormatarDataDeISO(data: string): string
  {
    SwapDate(data, '-', '/')
  }

  /** Swapping there and back restores a date that has three parts, none holding the other separator. */
  lemma {:induction false} SwapDateRoundTrip(s: string, from: char, to: char)
    requires |Split(s, from)| == 3 && from != to
    requires forall i :: 0 <= i < 3 ==> to !in Split(s, from)[i]
    ensures SwapDate(SwapDate(s, from, to), to, from) == s
  {
    var p := Split(s, from);
    SwapDateParts(s, from, to);
    JoinSplit(s, from);
    assert p[1..][1..] == [p[2]];
    assert Join(p[1..][1..], from) == p[2];
    assert Join(p[1..], from) == p[1] + [from] + p[2];
    assert Join(p, from) == p[0] + [from] + p[1] + [from] + p[2];
  }

  /** A three-part date comes out as its parts in reverse order, split by the new separator. */
  lemma {:induction false} SwapDateParts(s: string, from: char, to: char)
    requires |Split(s, from)| == 3
    requires forall i :: 0 <= i < 3 ==> to !in Split(s, from)[i]
    ensures var p := Split(s, from);
      Split(SwapDate(s, from, to), to) == [p[2], p[1], p[0]]
  {
    var p := Split(s, from);
    var q := [p[2], p[1], p[0]];
    assert q[1..] == [p[1], p[0]] && q[1..][1..] == [p[0]];
    assert Join(q[1..][1..], to) == p[0];
    assert Join(q[1..], to) == p[1] + [to] + p[0];
    assert Join(q, to) == p[2] + [to] + (p[1] + [to] + p[0]);
    assert SwapDate(s, from, to) == Join(q, to);
    SplitJoin(q, to);
  }

  lemma IsoRoundTrips(s: string)
    ensures |Split(s, '/')| != 3 ==> FormatarDataParaISO(s) == s
    ensures |Split(s, '-')| != 3 ==> FormatarDataDeISO(s) == s
    ensures |Split(s, '/')| == 3 && (forall i :: 0 <= i < 3 ==> '-' !in Split(s, '/')[i]) ==>
      FormatarDataDeISO(FormatarDataParaISO(s)) == s
    ensures |Split(s, '-')| == 3 && (forall i :: 0 <= i < 3 ==> '/' !in Split(s, '-')[i]) ==>
      FormatarDataParaISO(FormatarDataDeISO(s)) == s
  {
    if |Split(s, '/')| == 3 && (forall i :: 0 <= i < 3 ==> '-' !in Split(s, '/')[i]) {
      SwapDateRoundTrip(s, '/', '-');
    }
    if |Split(s, '-')| == 3 && (forall i :: 0 <= i < 3 ==> '/' !in Split(s, '-')[i]) {
      SwapDateRoundTrip(s, '-', '/');
    }
  }

  // ---------------------------------------------------------------------------
  // Age
  // ---------------------------------------------------------------------------

  /** `calcularIdade`, with today passed in. Only differences of months are taken, so
      numbering them from 1 rather than from 0 changes nothing. */
  function CalcularIdade(hoje: Date, nascimento: Date): int
  {
    var idade := hoje.year - nascimento.year;
    var m := hoje.month - nascimento.month;
    if m < 0 || (m == 0 && hoje.day < nascimento.day) then idade - 1 else idade
  }

  /** The age is the number of birthdays reached: the `n`-th anniversary is on or before
      today and the next one is not. */
  lemma IdadeCountsBirthdays(hoje: Date, nascimento: Date)
    ensures var n := CalcularIdade(hoje, nascimento);
      OnOrBefore(nascimento.(year := nascimento.year + n), hoje)
      && !OnOrBefore(nascimento.(year := nascimento.year + n + 1), hoje)
  {
  }
}
