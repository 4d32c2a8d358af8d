/** The consolidated task calendar screen (`CalendarioScreen`): activities are
    filtered by type, then grouped into five time buckets by how many days
    their planting date lies from today. Dates are day numbers counted from
    1 January 1970 and "today" is a parameter. */
module Agenda {
  import opened Values
  import opened Seqs

  /** A date field of an activity as the screen reads it: absent
      (undefined or the empty string; falsy, and `new Date` gives NaN),
      null (falsy, yet `new Date(null)` is the epoch), a non-empty string
      that is no date (truthy, but `new Date` gives NaN), or a calendar day. */
  datatype DateField = Missing | Null | Invalid | Day(day: int) {
    predicate Truthy() {
      Invalid? || Day?
    }

    /** The day `new Date(field)` names, None when it is NaN. */
    function Dia(): (d: Option<int>)
      ensures d.Some? <==> Day? || Null?
      ensures Day? ==> d == Some(day)
      ensures Null? ==> d == Some(Epoch)
    {
      match this
      case Day(n) => Some(n)
      case Null => Some(Epoch)
      case _ => None
    }
  }

  /** The day number of 1 January 1970. */
  const Epoch: int := 0

  /** One activity of the consolidated calendar. */
  datatype Atividade = Atividade(
    modulo: int,
    hortalicaNome: string,
    hortaNome: string,
    dataPlantio: DateField,
    dataInicioColheita: DateField,
    dataInicioLimpeza: DateField)

  /** The time buckets of the screen. */
  datatype Grupo = Hoje | Proximos7Dias | Proximos30Dias | Depois | Vencidas

  /** The section title shown for each bucket. */
  function Titulo(g: Grupo): string {
    match g
    case Hoje => "Hoje"
    case Proximos7Dias => "Próximos 7 dias"
    case Proximos30Dias => "Próximos 30 dias"
    case Depois => "Depois"
    case Vencidas => "Vencidas"
  }

  /** The order in which the buckets are declared, hence listed: overdue
      activities come last. */
  const Ordem: seq<Grupo> := [Hoje, Proximos7Dias, Proximos30Dias, Depois, Vencidas]

  /** Position of a bucket in `Ordem`. */
  function Posicao(g: Grupo): (k: nat)
    ensures k < |Ordem| && Ordem[k] == g
  {
    match g
    case Hoje => 0
    case Proximos7Dias => 1
    case Proximos30Dias => 2
    case Depois => 3
    case Vencidas => 4
  }

  /** A section of the list: a bucket and its activities. */
  datatype Secao = Secao(grupo: Grupo, data: seq<Atividade>) {
    function Title(): string {
      Titulo(grupo)
    }
  }

  /** The bucket of a day difference: the if-chain of `agruparPorData`. Every
      integer difference falls in exactly one bucket. */
  function Classificar(diasDiferenca: int): (g: Grupo)
    ensures g == Vencidas <==> diasDiferenca < 0
    ensures g == Hoje <==> diasDiferenca == 0
    ensures g == Proximos7Dias <==> 1 <= diasDiferenca <= 7
    ensures g == Proximos30Dias <==> 8 <= diasDiferenca <= 30
    ensures g == Depois <==> diasDiferenca > 30
  {
    if diasDiferenca < 0 then Vencidas
    else if diasDiferenca == 0 then Hoje
    else if diasDiferenca > 0 && diasDiferenca <= 7 then Proximos7Dias
    else if diasDiferenca > 7 && diasDiferenca <= 30 then Proximos30Dias
    else Depois
  }

  /** Upcoming buckets follow time: a later non-negative day difference never
      lands in an earlier-listed bucket. */
  lemma ClassificarMonotone(d1: int, d2: int)
    requires 0 <= d1 <= d2
    ensures Posicao(Classificar(d1)) <= Posicao(Classificar(d2))
  {
  }

  /** The bucket of an activity, or None when its planting date is no date:
      the day difference is then NaN and no branch of the if-chain fires. */
  function GrupoDe(a: Atividade, hoje: int): Option<Grupo> {
    match a.dataPlantio.Dia()
    case Some(d) => Some(Classificar(d - hoje))
    case None => None
  }

  function PertenceA(hoje: int, g: Grupo): Atividade -> bool {
    a => GrupoDe(a, hoje) == Some(g)
  }

  /** Reference definition of a bucket: the activities classified into it,
      in input order. */
  function NoGrupo(atividades: seq<Atividade>, hoje: int, g: Grupo): seq<Atividade> {
    Filter(atividades, PertenceA(hoje, g))
  }

  /** Reference definition of the sections from position `k` of `Ordem` on:
      one section per non-empty bucket, in declaration order. */
  function SecoesDesde(k: nat, atividades: seq<Atividade>, hoje: int): seq<Secao>
    requires k <= |Ordem|
    decreases |Ordem| - k
  {
    if k == |Ordem| then []
    else SecaoSeNaoVazia(Ordem[k], NoGrupo(atividades, hoje, Ordem[k])) + SecoesDesde(k + 1, atividades, hoje)
  }

  function SecaoSeNaoVazia(g: Grupo, items: seq<Atividade>): seq<Secao> {
    if items == [] then [] else [Secao(g, items)]
  }

  /** The sections from position `k` on are exactly the non-empty buckets
      from that position, each holding its bucket, in strictly increasing
      position. */
  lemma SecoesDesdeShape(k: nat, atividades: seq<Atividade>, hoje: int)
    requires k <= |Ordem|
    ensures var r := SecoesDesde(k, atividades, hoje);
            && (forall i :: 0 <= i < |r| ==>
                  k <= Posicao(r[i].grupo) && r[i].data != []
                  && r[i].data == NoGrupo(atividades, hoje, r[i].grupo))
            && (forall i, j :: 0 <= i < j < |r| ==> Posicao(r[i].grupo) < Posicao(r[j].grupo))
            && (forall g :: k <= Posicao(g) && NoGrupo(atividades, hoje, g) != [] ==>
                  Secao(g, NoGrupo(atividades, hoje, g)) in r)
  {
    SecoesDesdeBuckets(k, atividades, hoje);
    SecoesDesdeOrdered(k, atividades, hoje);
    SecoesDesdeComplete(k, atividades, hoje);
  }

  /** `Posicao` inverts indexing into `Ordem`. */
  lemma PosicaoOrdem(k: nat)
    requires k < |Ordem|
    ensures Posicao(Ordem[k]) == k
  {
  }

  /** Every section from position `k` on is a non-empty bucket at or after
      that position, holding exactly that bucket's activities. */
  lemma {:induction false} SecoesDesdeBuckets(k: nat, atividades: seq<Atividade>, hoje: int)
    requires k <= |Ordem|
    ensures forall i :: 0 <= i < |SecoesDesde(k, atividades, hoje)| ==>
              && k <= Posicao(SecoesDesde(k, atividades, hoje)[i].grupo)
              && SecoesDesde(k, atividades, hoje)[i].data != []
              && SecoesDesde(k, atividades, hoje)[i].data
                 == NoGrupo(atividades, hoje, SecoesDesde(k, atividades, hoje)[i].grupo)
    decreases |Ordem| - k
  {
    if k < |Ordem| {
      var head := SecaoSeNaoVazia(Ordem[k], NoGrupo(atividades, hoje, Ordem[k]));
      var rest := SecoesDesde(k + 1, atividades, hoje);
      var all := SecoesDesde(k, atividades, hoje);
      assert all == head + rest;
      SecoesDesdeBuckets(k + 1, atividades, hoje);
      PosicaoOrdem(k);
      forall i | 0 <= i < |all|
        ensures k <= Posicao(all[i].grupo) && all[i].data != []
                && all[i].data == NoGrupo(atividades, hoje, all[i].grupo)
      {
        if i < |head| {
          assert all[i] == Secao(Ordem[k], NoGrupo(atividades, hoje, Ordem[k]));
        } else {
          assert all[i] == rest[i - |head|];
        }
      }
    }
  }

  /** The sections from position `k` on come in strictly increasing
      position. */
  lemma {:induction false} SecoesDesdeOrdered(k: nat, atividades: seq<Atividade>, hoje: int)
    requires k <= |Ordem|
    ensures forall i, j :: 0 <= i < j < |SecoesDesde(k, atividades, hoje)| ==>
              Posicao(SecoesDesde(k, atividades, hoje)[i].grupo) < Posicao(SecoesDesde(k, atividades, hoje)[j].grupo)
    decreases |Ordem| - k
  {
    if k < |Ordem| {
      SecoesDesdeOrdered(k + 1, atividades, hoje);
      SecoesDesdeBuckets(k + 1, atividades, hoje);
      PosicaoOrdem(k);
      var head := SecaoSeNaoVazia(Ordem[k], NoGrupo(atividades, hoje, Ordem[k]));
      var rest := SecoesDesde(k + 1, atividades, hoje);
      var r := head + rest;
      forall i, j | 0 <= i < j < |r|
        ensures Posicao(r[i].grupo) < Posicao(r[j].grupo)
      {
        var j' := j - |head|;
        assert r[j] == rest[j'];
        if i >= |head| {
          assert r[i] == rest[i - |head|];
          assert Posicao(rest[i - |head|].grupo) < Posicao(rest[j'].grupo);
        } else {
          assert r[i] == head[i] && head[i].grupo == Ordem[k];
          assert 0 <= j' < |rest|;
          assert k + 1 <= Posicao(rest[j'].grupo);
          assert Posicao(r[i].grupo) == k;
        }
      }
    }
  }

  /** Every non-empty bucket at or after position `k` has its section. */
  lemma {:induction false} SecoesDesdeComplete(k: nat, atividades: seq<Atividade>, hoje: int)
    requires k <= |Ordem|
    ensures forall g :: k <= Posicao(g) && NoGrupo(atividades, hoje, g) != [] ==>
              Secao(g, NoGrupo(atividades, hoje, g)) in SecoesDesde(k, atividades, hoje)
    decreases |Ordem| - k
  {
    if k < |Ordem| {
      SecoesDesdeComplete(k + 1, atividades, hoje);
      PosicaoOrdem(k);
    }
  }

  /** Reference definition of the grouped list the screen shows. */
  function Agrupar(atividades: seq<Atividade>, hoje: int): seq<Secao> {
    SecoesDesde(0, atividades, hoje)
  }

  /** `agruparPorData` as written: one pass pushing every activity onto its
      bucket, then the non-empty buckets in declaration order. It computes
      exactly the reference grouping: no empty section, sections in the fixed
      order, and each section holds its bucket's activities in input order. */
  method AgruparPorData(atividades: seq<Atividade>, hoje: int) returns (secoes: seq<Secao>)
    ensures secoes == Agrupar(atividades, hoje)
    ensures forall i :: 0 <= i < |secoes| ==> secoes[i].data != []
    ensures forall i, j :: 0 <= i < j < |secoes| ==>
              Posicao(secoes[i].grupo) < Posicao(secoes[j].grupo)
  {
    var hojeItems: seq<Atividade> := [];
    var semana: seq<Atividade> := [];
    var mes: seq<Atividade> := [];
    var depois: seq<Atividade> := [];
    var vencidas: seq<Atividade> := [];
    var i := 0;
    while i < |atividades|
      invariant 0 <= i <= |atividades|
      invariant hojeItems == NoGrupo(atividades[..i], hoje, Hoje)
      invariant semana == NoGrupo(atividades[..i], hoje, Proximos7Dias)
      invariant mes == NoGrupo(atividades[..i], hoje, Proximos30Dias)
      invariant depois == NoGrupo(atividades[..i], hoje, Depois)
      invariant vencidas == NoGrupo(atividades[..i], hoje, Vencidas)
    {
      var a := atividades[i];
      assert atividades[..i + 1] == atividades[..i] + [a];
      NoGrupoSnoc(atividades[..i], a, hoje);
      match a.dataPlantio.Dia() {
        case Some(d) =>
          var diasDiferenca := d - hoje;
          if diasDiferenca < 0 {
            vencidas := vencidas + [a];
          } else if diasDiferenca == 0 {
            hojeItems := hojeItems + [a];
          } else if diasDiferenca > 0 && diasDiferenca <= 7 {
            semana := semana + [a];
          } else if diasDiferenca > 7 && diasDiferenca <= 30 {
            mes := mes + [a];
          } else if diasDiferenca > 30 {
            depois := depois + [a];
          }
        case None =>
      }
      i := i + 1;
    }
    assert atividades[..i] == atividades;
    AgruparUnfolded(atividades, hoje);
    // Object.entries(grupos), keeping the non-empty buckets, in declaration order.
    secoes := SecaoSeNaoVazia(Hoje, hojeItems) + SecaoSeNaoVazia(Proximos7Dias, semana)
              + SecaoSeNaoVazia(Proximos30Dias, mes) + SecaoSeNaoVazia(Depois, depois)
              + SecaoSeNaoVazia(Vencidas, vencidas);
    SecoesDesdeShape(0, atividades, hoje);
  }

  /** Appending one activity to the input appends it to its own bucket and
      leaves the other buckets as they were. */
  lemma NoGrupoSnoc(prefix: seq<Atividade>, a: Atividade, hoje: int)
    ensures forall g :: NoGrupo(prefix + [a], hoje, g)
                        == NoGrupo(prefix, hoje, g) + (if GrupoDe(a, hoje) == Some(g) then [a] else [])
  {
    forall g ensures NoGrupo(prefix + [a], hoje, g)
                     == NoGrupo(prefix, hoje, g) + (if GrupoDe(a, hoje) == Some(g) then [a] else [])
    {
      FilterSnoc(prefix, a, PertenceA(hoje, g));
    }
  }

  /** The reference grouping spelled out over the five buckets. */
  lemma AgruparUnfolded(atividades: seq<Atividade>, hoje: int)
    ensures Agrupar(atividades, hoje)
            == SecaoSeNaoVazia(Hoje, NoGrupo(atividades, hoje, Hoje))
               + SecaoSeNaoVazia(Proximos7Dias, NoGrupo(atividades, hoje, Proximos7Dias))
               + SecaoSeNaoVazia(Proximos30Dias, NoGrupo(atividades, hoje, Proximos30Dias))
               + SecaoSeNaoVazia(Depois, NoGrupo(atividades, hoje, Depois))
               + SecaoSeNaoVazia(Vencidas, NoGrupo(atividades, hoje, Vencidas))
  {
    assert SecoesDesde(5, atividades, hoje) == [];
    assert SecoesDesde(4, atividades, hoje)
           == SecaoSeNaoVazia(Vencidas, NoGrupo(atividades, hoje, Vencidas));
    assert SecoesDesde(3, atividades, hoje)
           == SecaoSeNaoVazia(Depois, NoGrupo(atividades, hoje, Depois)) + SecoesDesde(4, atividades, hoje);
    assert SecoesDesde(2, atividades, hoje)
           == SecaoSeNaoVazia(Proximos30Dias, NoGrupo(atividades, hoje, Proximos30Dias))
              + SecoesDesde(3, atividades, hoje);
    assert SecoesDesde(1, atividades, hoje)
           == SecaoSeNaoVazia(Proximos7Dias, NoGrupo(atividades, hoje, Proximos7Dias))
              + SecoesDesde(2, atividades, hoje);
  }

  /** An activity whose planting date names a day is in exactly one bucket,
      the one its day difference selects; any other activity is in none. A
      null planting date names the epoch, so after 1 January 1970 the
      activity is overdue. */
  lemma ExactlyOneBucket(atividades: seq<Atividade>, hoje: int, a: Atividade, g: Grupo)
    requires a in atividades
    ensures a.dataPlantio.Dia().Some? ==>
              (a in NoGrupo(atividades, hoje, g) <==> g == Classificar(a.dataPlantio.Dia().value - hoje))
    ensures a.dataPlantio.Dia().None? ==> a !in NoGrupo(atividades, hoje, g)
    ensures a.dataPlantio.Null? && hoje > Epoch ==> (a in NoGrupo(atividades, hoje, g) <==> g == Vencidas)
  {
    FilterMembership(atividades, PertenceA(hoje, g), a);
  }

  /** Activities whose planting date names a day. */
  function Datadas(atividades: seq<Atividade>): seq<Atividade> {
    Filter(atividades, (a: Atividade) => a.dataPlantio.Dia().Some?)
  }

  function TotalNosGrupos(atividades: seq<Atividade>, hoje: int): nat {
    |NoGrupo(atividades, hoje, Hoje)| + |NoGrupo(atividades, hoje, Proximos7Dias)|
    + |NoGrupo(atividades, hoje, Proximos30Dias)| + |NoGrupo(atividades, hoje, Depois)|
    + |NoGrupo(atividades, hoje, Vencidas)|
  }

  /** The five bucket sizes add up to the number of dated activities, so no
      dated activity is lost or counted twice. */
  lemma {:induction false} BucketSizesSum(atividades: seq<Atividade>, hoje: int)
    ensures TotalNosGrupos(atividades, hoje) == |Datadas(atividades)|
    decreases |atividades|
  {
    if atividades != [] {
      BucketSizesSum(atividades[1..], hoje);
    }
  }

  /** When every planting date names a day, the bucket sizes add up to the
      input length. */
  lemma BucketSizesSumAllDated(atividades: seq<Atividade>, hoje: int)
    requires forall i :: 0 <= i < |atividades| ==> atividades[i].dataPlantio.Dia().Some?
    ensures TotalNosGrupos(atividades, hoje) == |atividades|
  {
    BucketSizesSum(atividades, hoje);
    FilterKeepsAll(atividades, (a: Atividade) => a.dataPlantio.Dia().Some?);
  }

  /** Adding activities after existing ones only appends to each bucket: the
      earlier activities keep their places. */
  lemma BucketKeepsInputOrder(a: seq<Atividade>, b: seq<Atividade>, hoje: int, g: Grupo)
    ensures NoGrupo(a + b, hoje, g) == NoGrupo(a, hoje, g) + NoGrupo(b, hoje, g)
  {
    FilterAppend(a, b, PertenceA(hoje, g));
  }

  // ---------------------------------------------------------------------
  // Activity types and the type filter.

  datatype Tipo = Plantio | Colheita | Limpeza | Outro

  /** The value the filter buttons compare against. */
  function NomeTipo(t: Tipo): string {
    match t
    case Plantio => "plantio"
    case Colheita => "colheita"
    case Limpeza => "limpeza"
    case Outro => "outro"
  }

  /** `obterTipoAtividade`: the first date field present decides, in the
      priority planting, harvest, clean-up. */
  function ObterTipoAtividade(a: Atividade): (t: Tipo)
    ensures t == Plantio <==> a.dataPlantio.Truthy()
    ensures t == Colheita <==> !a.dataPlantio.Truthy() && a.dataInicioColheita.Truthy()
    ensures t == Limpeza <==>
              !a.dataPlantio.Truthy() && !a.dataInicioColheita.Truthy() && a.dataInicioLimpeza.Truthy()
    ensures t == Outro <==>
              !a.dataPlantio.Truthy() && !a.dataInicioColheita.Truthy() && !a.dataInicioLimpeza.Truthy()
  {
    if a.dataPlantio.Truthy() then Plantio
    else if a.dataInicioColheita.Truthy() then Colheita
    else if a.dataInicioLimpeza.Truthy() then Limpeza
    else Outro
  }

  function DoTipo(filtroTipo: string): Atividade -> bool {
    a => NomeTipo(ObterTipoAtividade(a)) == filtroTipo
  }

  /** `filtrarAtividades`: 'todas' keeps the list as it is; any other filter
      keeps, in order, the activities whose type name equals it. */
  function FiltrarAtividades(atividades: seq<Atividade>, filtroTipo: string): (r: seq<Atividade>)
    ensures filtroTipo == "todas" ==> r == atividades
    ensures filtroTipo != "todas" ==>
              forall a :: a in r <==> a in atividades && NomeTipo(ObterTipoAtividade(a)) == filtroTipo
  {
    if filtroTipo == "todas" then atividades
    else
      assert forall a :: a in Filter(atividades, DoTipo(filtroTipo))
                         <==> a in atividades && DoTipo(filtroTipo)(a) by {
        forall a ensures a in Filter(atividades, DoTipo(filtroTipo))
                         <==> a in atividades && DoTipo(filtroTipo)(a) {
          FilterMembership(atividades, DoTipo(filtroTipo), a);
        }
      }
      Filter(atividades, DoTipo(filtroTipo))
  }

  /** The four type filters split the list: their sizes add up to its length. */
  lemma {:induction false} TypeFiltersPartition(atividades: seq<Atividade>)
    ensures |FiltrarAtividades(atividades, "plantio")| + |FiltrarAtividades(atividades, "colheita")|
            + |FiltrarAtividades(atividades, "limpeza")| + |FiltrarAtividades(atividades, "outro")|
            == |atividades|
    decreases |atividades|
  {
    if atividades != [] {
      TypeFiltersPartition(atividades[1..]);
    }
  }

  /** The type filter keeps the input order: filtering a list made of two
      parts filters each part and concatenates the results. */
  lemma FiltrarAtividadesKeepsOrder(a: seq<Atividade>, b: seq<Atividade>, filtroTipo: string)
    ensures FiltrarAtividades(a + b, filtroTipo)
            == FiltrarAtividades(a, filtroTipo) + FiltrarAtividades(b, filtroTipo)
  {
    if filtroTipo != "todas" {
      FilterAppend(a, b, DoTipo(filtroTipo));
    }
  }

  /** On one activity the filter keeps it, once, exactly when the filter is
      'todas' or names its type. With `FiltrarAtividadesKeepsOrder` this
      fixes the result for every list: order and repetitions are kept. */
  lemma FiltrarAtividadesSingle(a: Atividade, filtroTipo: string)
    ensures FiltrarAtividades([a], filtroTipo)
            == if filtroTipo == "todas" || NomeTipo(ObterTipoAtividade(a)) == filtroTipo then [a] else []
  {
    assert [a][1..] == [];
  }

  /** A filter naming no type shows nothing. */
  lemma UnknownFilterEmpty(atividades: seq<Atividade>, filtroTipo: string)
    requires filtroTipo !in {"todas", "plantio", "colheita", "limpeza", "outro"}
    ensures FiltrarAtividades(atividades, filtroTipo) == []
  {
  }

  /** What the screen lists: the filter is applied first, then the grouping.
      Every section is the non-empty bucket of the filtered activities, the
      sections follow the declaration order, and each non-empty bucket of
      the filtered activities has its section. */
  function Secoes(atividades: seq<Atividade>, filtroTipo: string, hoje: int): (r: seq<Secao>)
    ensures forall i :: 0 <= i < |r| ==>
              r[i].data != [] && r[i].data == NoGrupo(FiltrarAtividades(atividades, filtroTipo), hoje, r[i].grupo)
    ensures forall i, j :: 0 <= i < j < |r| ==> Posicao(r[i].grupo) < Posicao(r[j].grupo)
    ensures forall g :: NoGrupo(FiltrarAtividades(atividades, filtroTipo), hoje, g) != [] ==>
              Secao(g, NoGrupo(FiltrarAtividades(atividades, filtroTipo), hoje, g)) in r
  {
    SecoesDesdeShape(0, FiltrarAtividades(atividades, filtroTipo), hoje);
    Agrupar(FiltrarAtividades(atividades, filtroTipo), hoje)
  }

  /** Because filtering comes before grouping, every activity in every
      section has the selected type. */
  lemma SectionsRespectFilter(atividades: seq<Atividade>, filtroTipo: string, hoje: int)
    requires filtroTipo != "todas"
    ensures forall i, j :: (0 <= i < |Secoes(atividades, filtroTipo, hoje)|
                            && 0 <= j < |Secoes(atividades, filtroTipo, hoje)[i].data|) ==>
              NomeTipo(ObterTipoAtividade(Secoes(atividades, filtroTipo, hoje)[i].data[j])) == filtroTipo
  {
    var f := FiltrarAtividades(atividades, filtroTipo);
    var s := Secoes(atividades, filtroTipo, hoje);
    forall i, j | 0 <= i < |s| && 0 <= j < |s[i].data|
      ensures NomeTipo(ObterTipoAtividade(s[i].data[j])) == filtroTipo
    {
      var x := s[i].data[j];
      FilterMembership(f, PertenceA(hoje, s[i].grupo), x);
    }
  }
}
