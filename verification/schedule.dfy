/** The per-cultivation calendar action (`CultivoViewSet.calendario`): one
    entry per cultivation module, with its planting date and the harvest and
    clean-up dates that follow from the crop's cycle lengths. Dates are day
    numbers, so adding `w` weeks adds `7·w` days. */
module Schedule {

  /** The crop's cycle fields, all in weeks. */
  datatype Ciclo = Ciclo(
    periodicidade: int,
    cicloDesenvolvimento: int,
    cicloColheita: int,
    cicloLimpeza: int)

  /** One entry of the calendar: a module and its four dates. */
  datatype Atividade = Atividade(
    modulo: int,
    dataPlantio: int,
    dataInicioColheita: int,
    dataFimColheita: int,
    dataProximoPlantioDisponivel: int)

  /** Days in `w` weeks (`timedelta(weeks=w)`). */
  function Weeks(w: int): int {
    7 * w
  }

  /** The entry of the module at zero-based position `i`: planted `i`
      planting periods after the start, harvested after the development
      cycle, for the harvest cycle, and free again after clean-up. */
  function Entry(dataInicio: int, c: Ciclo, i: int): (e: Atividade)
    ensures e.modulo == i + 1
    ensures e.dataPlantio - dataInicio == 7 * i * c.periodicidade
    ensures e.dataInicioColheita - e.dataPlantio == 7 * c.cicloDesenvolvimento
    ensures e.dataFimColheita - e.dataInicioColheita == 7 * c.cicloColheita
    ensures e.dataProximoPlantioDisponivel - e.dataFimColheita == 7 * c.cicloLimpeza
  {
    var plantio := dataInicio + Weeks(i * c.periodicidade);
    var inicioColheita := plantio + Weeks(c.cicloDesenvolvimento);
    var fimColheita := inicioColheita + Weeks(c.cicloColheita);
    var inicioLimpeza := fimColheita;
    var fimLimpeza := inicioLimpeza + Weeks(c.cicloLimpeza);
    Atividade(i + 1, plantio, inicioColheita, fimColheita, fimLimpeza)
  }

  /** The calendar for a cultivation of `numModulos` modules starting on
      `dataInicio`: `range(numModulos)` is empty for a non-positive count. */
  method Calendario(dataInicio: int, numModulos: int, c: Ciclo) returns (atividades: seq<Atividade>)
    ensures |atividades| == if numModulos > 0 then numModulos else 0
    ensures forall k :: 0 <= k < |atividades| ==> atividades[k] == Entry(dataInicio, c, k)
    ensures forall k :: 0 <= k < |atividades| ==> atividades[k].modulo == k + 1
    ensures forall k :: 0 <= k < |atividades| ==>
              atividades[k].dataPlantio == dataInicio + 7 * k * c.periodicidade
    ensures forall k :: 0 < k < |atividades| ==>
              atividades[k].dataPlantio - atividades[k - 1].dataPlantio == 7 * c.periodicidade
    ensures forall k :: 0 <= k < |atividades| ==>
              atividades[k].dataProximoPlantioDisponivel - atividades[k].dataPlantio
              == 7 * (c.cicloDesenvolvimento + c.cicloColheita + c.cicloLimpeza)
  {
    atividades := [];
    var i := 0;
    while i < numModulos
      invariant 0 <= i
      invariant i <= if numModulos > 0 then numModulos else 0
      invariant |atividades| == i
      invariant forall k :: 0 <= k < i ==> atividades[k] == Entry(dataInicio, c, k)
    {
      atividades := atividades + [Entry(dataInicio, c, i)];
      i := i + 1;
    }
    forall k | 0 < k < |atividades|
      ensures atividades[k].dataPlantio - atividades[k - 1].dataPlantio == 7 * c.periodicidade
    {
      StaggerStep(dataInicio, c, k);
    }
  }

  /** Consecutive modules are planted exactly one planting period apart. */
  lemma StaggerStep(dataInicio: int, c: Ciclo, k: int)
    ensures Entry(dataInicio, c, k + 1).dataPlantio - Entry(dataInicio, c, k).dataPlantio
            == 7 * c.periodicidade
  {
    assert 7 * (k + 1) * c.periodicidade == 7 * k * c.periodicidade + 7 * c.periodicidade;
  }

  /** With non-negative cycles the four dates of an entry never go
      backwards. */
  lemma EntryDatesOrdered(dataInicio: int, c: Ciclo, i: int)
    requires c.cicloDesenvolvimento >= 0 && c.cicloColheita >= 0 && c.cicloLimpeza >= 0
    ensures var e := Entry(dataInicio, c, i);
            e.dataPlantio <= e.dataInicioColheita <= e.dataFimColheita
            <= e.dataProximoPlantioDisponivel
  {
  }

  /** With a non-negative planting period, later modules are never planted
      earlier than earlier modules. */
  lemma PlantingMonotone(dataInicio: int, c: Ciclo, i: int, j: int)
    requires c.periodicidade >= 0
    requires 0 <= i <= j
    ensures Entry(dataInicio, c, i).dataPlantio <= Entry(dataInicio, c, j).dataPlantio
  {
    assert 7 * i * c.periodicidade <= 7 * j * c.periodicidade by {
      assert (j - i) * c.periodicidade >= 0;
    }
  }
}
