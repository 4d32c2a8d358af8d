/** The module-sizing action of the crop endpoint
    (`HortalicaViewSet.calcular_dimensionamento`): how many cultivation
    modules, and how much area, a weekly production target needs. */
module Sizing {
  import opened Values

  /** The technical fields of a crop ("hortaliça") that sizing reads. */
  datatype Hortalica = Hortalica(produtividadeEsperada: real, areaModulo: real)

  /** The `desejada` query parameter: missing from the URL, present but not a
      number `float()` accepts, text `float()` reads as a NaN or an infinity
      ("nan", "inf", "1e400", and the "NaN" or "Infinity" a client sends for
      such a number), or a finite number. */
  datatype Desejada = Absent | Unparseable | NotFinite | Given(amount: real)

  /** The HTTP answer: 200 with the two computed fields, 400 with an error
      message, or 500 (an exception caught by the action's `except`). */
  datatype Response =
    | Ok(numModulosCalculado: int, areaTotalCalculada: real)
    | BadRequest(erro: string)
    | ServerError

  const MissingDesejada := "Parâmetro 'desejada' (produção desejada) é obrigatório."
  const NonPositiveProdutividade := "Produtividade esperada da hortaliça deve ser maior que zero."

  /** Python's `math.ceil` on an exact real: the least integer not below `x`. */
  function Ceil(x: real): (n: int)
    ensures n as real >= x
    ensures (n - 1) as real < x
  {
    -((-x).Floor)
  }

  /** `calcular_dimensionamento`. `crop` is None when the id in the URL names
      no crop: `get_object` then raises inside the `try`, which answers 500.
      A non-finite target passes `float()`; with a positive productivity
      `math.ceil` then raises on it, which also answers 500. */
  function CalcularDimensionamento(crop: Option<Hortalica>, desejada: Desejada): (r: Response)
    ensures r.Ok? <==> crop.Some? && desejada.Given? && crop.value.produtividadeEsperada > 0.0
    ensures crop.None? ==> r == ServerError
    ensures crop.Some? && desejada.Absent? ==> r == BadRequest(MissingDesejada)
    ensures crop.Some? && desejada.Unparseable? ==> r == ServerError
    ensures crop.Some? && (desejada.Given? || desejada.NotFinite?) && crop.value.produtividadeEsperada <= 0.0
            ==> r == BadRequest(NonPositiveProdutividade)
    ensures crop.Some? && desejada.NotFinite? && crop.value.produtividadeEsperada > 0.0
            ==> r == ServerError
    ensures r.Ok? ==>
              var p := crop.value.produtividadeEsperada;
              var d := desejada.amount;
              && r.numModulosCalculado as real * p >= d
              && (r.numModulosCalculado - 1) as real * p < d
              && r.areaTotalCalculada == r.numModulosCalculado as real * crop.value.areaModulo
  {
    if crop.None? then ServerError
    else if desejada.Absent? then BadRequest(MissingDesejada)
    else if desejada.Unparseable? then ServerError
    else
      var p := crop.value.produtividadeEsperada;
      if p <= 0.0 then BadRequest(NonPositiveProdutividade)
      else if desejada.NotFinite? then ServerError
      else
        var d := desejada.amount;
        var n := Ceil(d / p);
        CeilScales(d, p, n);
        Ok(n, n as real * crop.value.areaModulo)
  }

  /** `n = ceil(d / p)` with `p > 0` brackets the target between `(n-1)·p`
      and `n·p`. */
  lemma CeilScales(d: real, p: real, n: int)
    requires p > 0.0
    requires n == Ceil(d / p)
    ensures n as real * p >= d
    ensures (n - 1) as real * p < d
  {
    var q := d / p;
    assert q * p == d;
    assert n as real >= q;
    assert n as real * p >= q * p;
    assert (n - 1) as real < q;
    assert (n - 1) as real * p < q * p;
  }

  /** Shorthand for the module count of a successful sizing. */
  function Modules(crop: Hortalica, d: real): int
    requires crop.produtividadeEsperada > 0.0
  {
    CalcularDimensionamento(Some(crop), Given(d)).numModulosCalculado
  }

  /** The module count is the least that covers the target: any count `m`
      whose modules produce at least `d` is no smaller. */
  lemma ModulesLeast(crop: Hortalica, d: real, m: int)
    requires crop.produtividadeEsperada > 0.0
    requires m as real * crop.produtividadeEsperada >= d
    ensures Modules(crop, d) <= m
  {
    var n := Modules(crop, d);
    var p := crop.produtividadeEsperada;
    assert (n - 1) as real * p < m as real * p;
    assert ((n - 1) - m) as real * p == (n - 1) as real * p - m as real * p;
    PositiveFactorSign(((n - 1) - m) as real, p);
  }

  /** An exact multiple of the per-module productivity needs exactly that
      many modules: no spare module is added. */
  lemma ExactMultiple(crop: Hortalica, k: int)
    requires crop.produtividadeEsperada > 0.0
    ensures Modules(crop, k as real * crop.produtividadeEsperada) == k
  {
    var p := crop.produtividadeEsperada;
    var d := k as real * p;
    var n := Modules(crop, d);
    ModulesLeast(crop, d, k);
    if n < k {
      assert n as real * p < k as real * p;
    }
  }

  /** A zero target gives zero modules and zero area: the action puts no
      lower bound on the target. */
  lemma ZeroTarget(crop: Hortalica)
    requires crop.produtividadeEsperada > 0.0
    ensures CalcularDimensionamento(Some(crop), Given(0.0)) == Ok(0, 0.0)
  {
    ExactMultiple(crop, 0);
  }

  /** A positive target needs at least one module. */
  lemma PositiveTarget(crop: Hortalica, d: real)
    requires crop.produtividadeEsperada > 0.0
    requires d > 0.0
    ensures Modules(crop, d) >= 1
  {
  }

  /** Raising the target never lowers the module count, nor (for a
      non-negative module area) the total area. */
  lemma Monotone(crop: Hortalica, d1: real, d2: real)
    requires crop.produtividadeEsperada > 0.0
    requires d1 <= d2
    ensures Modules(crop, d1) <= Modules(crop, d2)
    ensures crop.areaModulo >= 0.0 ==>
              CalcularDimensionamento(Some(crop), Given(d1)).areaTotalCalculada
              <= CalcularDimensionamento(Some(crop), Given(d2)).areaTotalCalculada
  {
    var n2 := Modules(crop, d2);
    ModulesLeast(crop, d1, n2);
    var n1 := Modules(crop, d1);
    if crop.areaModulo >= 0.0 {
      assert n1 as real * crop.areaModulo <= n2 as real * crop.areaModulo;
    }
  }
}
