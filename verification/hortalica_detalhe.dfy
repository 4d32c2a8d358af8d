/** The cultivation detail screen (`HortalicaDetalheScreen.js`): the total
    cycle it displays, and the input guard and result update of its sizing
    button. The request goes to the sizing action of the backend, so the
    screen's answer is taken from `Sizing.CalcularDimensionamento`. */
module HortalicaDetalhe {
  import opened Values
  import Sizing
  import Schedule

  /** The crop fields the screen reads, cycles in weeks. */
  datatype Hortalica = Hortalica(
    id: int,
    cicloDesenvolvimento: int,
    cicloColheita: int,
    cicloLimpeza: int)

  /** The crop's cycles as the backend calendar reads them, with planting
      period `periodicidade`. */
  function CicloDe(h: Hortalica, periodicidade: int): Schedule.Ciclo {
    Schedule.Ciclo(periodicidade, h.cicloDesenvolvimento, h.cicloColheita, h.cicloLimpeza)
  }

  /** `cicloTotal`: the weeks from planting until the module is free again,
      which is, in days over seven, the span of every entry the backend
      calendar builds for this crop, whatever the start, period and module. */
  function CicloTotal(h: Hortalica): (t: int)
    ensures forall dataInicio: int, periodicidade: int, i: int ::
              Schedule.Entry(dataInicio, CicloDe(h, periodicidade), i).dataProximoPlantioDisponivel
              - Schedule.Entry(dataInicio, CicloDe(h, periodicidade), i).dataPlantio == 7 * t
  {
    h.cicloDesenvolvimento + h.cicloColheita + h.cicloLimpeza
  }

  /** What pressing the button does with the parsed input: an alert and no
      request, or a request for this crop with the parsed value. */
  datatype Pedido = Recusado | Calcular(hortalicaId: int, producao: JsNumber)

  /** JavaScript's `<= 0` on a number: false for NaN and for +Infinity. */
  predicate AtMostZero(x: JsNumber) {
    match x
    case NaN => false
    case Infinite(positive) => !positive
    case Num(v) => v <= 0.0
  }

  /** The guard of `handleCalcular`: `!producao || producao <= 0` refuses
      NaN, zero, negative numbers and -Infinity, and lets +Infinity through. */
  function HandleCalcular(h: Hortalica, producao: JsNumber): (r: Pedido)
    ensures r.Calcular? <==> (producao.Num? && producao.value > 0.0) || producao == Infinite(true)
    ensures r.Calcular? ==> r.hortalicaId == h.id && r.producao == producao
  {
    if !producao.Truthy() || AtMostZero(producao) then Recusado
    else Calcular(h.id, producao)
  }

  /** The `desejada` the backend reads: the request sends the number's text,
      which `float()` reads back as the same finite number, or as a NaN or an
      infinity. */
  function Parametro(x: JsNumber): (d: Sizing.Desejada)
    ensures d.Given? <==> x.Num?
    ensures x.Num? ==> d.amount == x.value
    ensures !x.Num? ==> d == Sizing.NotFinite
  {
    match x
    case Num(v) => Sizing.Given(v)
    case _ => Sizing.NotFinite
  }

  /** The screen state the button changes: the last sizing result shown. */
  datatype Estado = Estado(resultado: Option<Sizing.Response>)

  /** The whole button press. A refused input leaves the state alone. A
      request is answered by the sizing action (`crop` is the backend's view
      of the crop, None when the id is unknown); a 200 answer replaces
      `resultado`, an error answer raises an alert and leaves it. */
  function PressCalcular(st: Estado, h: Hortalica, producao: JsNumber, crop: Option<Sizing.Hortalica>)
    : (r: Estado)
    ensures HandleCalcular(h, producao).Recusado? ==> r == st
    ensures HandleCalcular(h, producao).Calcular? ==>
              var resposta := Sizing.CalcularDimensionamento(crop, Parametro(producao));
              (resposta.Ok? ==> r.resultado == Some(resposta))
              && (!resposta.Ok? ==> r == st)
  {
    match HandleCalcular(h, producao)
    case Recusado => st
    case Calcular(_, v) =>
      var resposta := Sizing.CalcularDimensionamento(crop, Parametro(v));
      if resposta.Ok? then Estado(Some(resposta)) else st
  }

  /** +Infinity passes the screen's guard but never produces a result: the
      backend answers 400 or 500 and the state is kept. */
  lemma InfinityNeverShown(st: Estado, h: Hortalica, crop: Option<Sizing.Hortalica>)
    ensures HandleCalcular(h, Infinite(true)).Calcular?
    ensures PressCalcular(st, h, Infinite(true), crop) == st
  {
  }

  /** A result the screen shows after a press was computed from a positive
      target, so it is at least one module. */
  lemma ShownResultHasModules(st: Estado, h: Hortalica, producao: JsNumber, crop: Option<Sizing.Hortalica>)
    requires PressCalcular(st, h, producao, crop) != st
    ensures var r := PressCalcular(st, h, producao, crop).resultado;
            r.Some? && r.value.Ok? && r.value.numModulosCalculado >= 1
  {
    var resposta := Sizing.CalcularDimensionamento(crop, Parametro(producao));
    assert resposta.Ok?;
    Sizing.PositiveTarget(crop.value, producao.value);
  }
}
