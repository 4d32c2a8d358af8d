/** The derived fields the Django models fill in when they are saved:
    a cultivation's default area (`Cultivo.save`) and a report's efficiency
    percentage (`Relatorio.save`). Saving is modelled as a function from the
    record before `super().save()` to the record that is written. */
module Records {
  import opened Values

  /** The fields of a cultivation ("cultivo") that `save` reads or writes;
      `areaModulo` is the module area of its crop. `None` is SQL NULL. */
  datatype Cultivo = Cultivo(
    numModulos: int,
    producaoSemanalDesejada: real,
    dataInicio: int,
    areaModulo: real,
    areaTotalHortalica: Option<real>)

  /** The fields of a report ("relatório"). `totalProduzidoPlanejado` is
      None when the attribute is unset. */
  datatype Relatorio = Relatorio(
    totalProduzidoPlanejado: Option<real>,
    totalColhidoReal: real,
    eficiencia: Option<real>)

  /** Python truthiness of an optional float: None and 0.0 are falsy. */
  predicate Truthy(x: Option<real>) {
    x.Some? && x.value != 0.0
  }

  /** The area all of a cultivation's modules occupy. */
  function AreaDosModulos(c: Cultivo): real {
    c.numModulos as real * c.areaModulo
  }

  /** `Cultivo.save`: an unset or zero total area defaults to the area of all
      modules; a non-zero area is kept; every other field is untouched. */
  function SaveCultivo(c: Cultivo): (s: Cultivo)
    ensures s.areaTotalHortalica.Some?
    ensures Truthy(c.areaTotalHortalica) ==> s.areaTotalHortalica == c.areaTotalHortalica
    ensures !Truthy(c.areaTotalHortalica) ==>
              s.areaTotalHortalica.value == c.numModulos as real * c.areaModulo
    ensures s.(areaTotalHortalica := c.areaTotalHortalica) == c
  {
    if Truthy(c.areaTotalHortalica) then c
    else c.(areaTotalHortalica := Some(AreaDosModulos(c)))
  }

  /** Saving a cultivation twice writes the same record as saving it once. */
  lemma SaveCultivoIdempotent(c: Cultivo)
    ensures SaveCultivo(SaveCultivo(c)) == SaveCultivo(c)
  {
    var s := SaveCultivo(c);
    assert AreaDosModulos(s) == AreaDosModulos(c) by {
      assert s.numModulos == c.numModulos && s.areaModulo == c.areaModulo;
    }
  }

  /** After a save the stored area is never NULL, and it is zero only when
      the modules cover no area. */
  lemma SavedAreaZeroOnlyWithoutModules(c: Cultivo)
    ensures SaveCultivo(c).areaTotalHortalica.value == 0.0 ==>
              c.numModulos as real * c.areaModulo == 0.0
  {
  }

  /** `Relatorio.save`: the efficiency is harvested over planned, as a
      percentage, when the planned total is positive, and 0 otherwise; it is
      recomputed on every save and no other field changes. */
  function SaveRelatorio(r: Relatorio): (s: Relatorio)
    ensures s.eficiencia.Some?
    ensures s.(eficiencia := r.eficiencia) == r
    ensures r.totalProduzidoPlanejado.Some? && r.totalProduzidoPlanejado.value > 0.0 ==>
              s.eficiencia.value * r.totalProduzidoPlanejado.value == r.totalColhidoReal * 100.0
    ensures r.totalProduzidoPlanejado.None? || r.totalProduzidoPlanejado.value <= 0.0 ==>
              s.eficiencia.value == 0.0
  {
    var planejado := r.totalProduzidoPlanejado;
    if Truthy(planejado) && planejado.value > 0.0 then
      r.(eficiencia := Some((r.totalColhidoReal / planejado.value) * 100.0))
    else
      r.(eficiencia := Some(0.0))
  }

  /** The stored efficiency depends only on the two totals: whatever value
      the record held before is overwritten. */
  lemma EficienciaOverwritten(r: Relatorio, previous: Option<real>)
    ensures SaveRelatorio(r.(eficiencia := previous)) == SaveRelatorio(r)
  {
  }

  /** A harvest equal to the plan is 100% efficient; a harvest within
      `[0, plan]` lies between 0% and 100%. */
  lemma EficienciaBounds(r: Relatorio)
    requires r.totalProduzidoPlanejado.Some? && r.totalProduzidoPlanejado.value > 0.0
    requires 0.0 <= r.totalColhidoReal <= r.totalProduzidoPlanejado.value
    ensures 0.0 <= SaveRelatorio(r).eficiencia.value <= 100.0
    ensures r.totalColhidoReal == r.totalProduzidoPlanejado.value ==>
              SaveRelatorio(r).eficiencia.value == 100.0
  {
    var p := r.totalProduzidoPlanejado.value;
    var c := r.totalColhidoReal;
    var e := SaveRelatorio(r).eficiencia.value;
    assert e * p == c * 100.0;
    assert (100.0 - e) * p == (p - c) * 100.0;
    PositiveFactorSign(e, p);
    PositiveFactorSign(100.0 - e, p);
    if c == p {
      assert (100.0 - e) * p == 0.0;
      PositiveFactorSign(e - 100.0, p);
    }
  }
}
