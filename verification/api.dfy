/** The pure parts of the client REST service (`services/api.js`): the
    garden filter applied to the cultivation list, the join of cultivations
    with the crop catalogue, and the error text shown when a request fails.
    The HTTP requests themselves are replaced by their already-fetched
    results. */
module Api {
  import opened Values
  import opened Seqs

  /** A cultivation record as the API lists it. */
  datatype Cultivo = Cultivo(
    id: int,
    horta: int,
    hortalica: int,
    numModulos: int,
    dataInicio: string)

  /** A crop catalogue entry. */
  datatype Hortalica = Hortalica(
    id: int,
    nome: string,
    cicloDesenvolvimento: int,
    cicloColheita: int,
    cicloLimpeza: int)

  /** A cultivation paired with its crop. */
  datatype CultivoDetalhado = CultivoDetalhado(cultivo: Cultivo, hortalica: Hortalica)

  function DaHorta(hortaId: int): Cultivo -> bool {
    (c: Cultivo) => c.horta == hortaId
  }

  /** `fetchCultivos`: the cultivations of one garden, in the order the
      server listed them. */
  function FetchCultivos(todos: seq<Cultivo>, hortaId: int): (r: seq<Cultivo>)
    ensures |r| <= |todos|
    ensures forall c :: c in r <==> c in todos && c.horta == hortaId
  {
    assert forall c :: c in Filter(todos, DaHorta(hortaId)) <==> c in todos && DaHorta(hortaId)(c) by {
      forall c ensures c in Filter(todos, DaHorta(hortaId)) <==> c in todos && DaHorta(hortaId)(c) {
        FilterMembership(todos, DaHorta(hortaId), c);
      }
    }
    Filter(todos, DaHorta(hortaId))
  }

  /** The garden filter keeps the server's order: filtering a list made of
      two parts gives the filtered first part followed by the filtered
      second part. */
  lemma FetchCultivosKeepsOrder(a: seq<Cultivo>, b: seq<Cultivo>, hortaId: int)
    ensures FetchCultivos(a + b, hortaId) == FetchCultivos(a, hortaId) + FetchCultivos(b, hortaId)
  {
    FilterAppend(a, b, DaHorta(hortaId));
  }

  /** The lookup table `hortalicasMap` built by `reduce`: each catalogue
      entry is stored under its id, later entries overwriting earlier ones. */
  function MapaHortalicas(hortalicas: seq<Hortalica>): (m: map<int, Hortalica>)
    ensures forall k :: k in m <==> exists i :: 0 <= i < |hortalicas| && hortalicas[i].id == k
    ensures forall k :: k in m ==> m[k].id == k && m[k] in hortalicas
  {
    if hortalicas == [] then map[]
    else
      var init := hortalicas[..|hortalicas| - 1];
      var h := hortalicas[|hortalicas| - 1];
      var m := MapaHortalicas(init);
      assert forall i :: 0 <= i < |init| ==> init[i] == hortalicas[i];
      m[h.id := h]
  }

  /** When ids repeat, the table holds the last catalogue entry with that id. */
  lemma {:induction false} LastEntryWins(hortalicas: seq<Hortalica>, i: int)
    requires 0 <= i < |hortalicas|
    requires forall j :: i < j < |hortalicas| ==> hortalicas[j].id != hortalicas[i].id
    ensures MapaHortalicas(hortalicas)[hortalicas[i].id] == hortalicas[i]
    decreases |hortalicas|
  {
    if i < |hortalicas| - 1 {
      var init := hortalicas[..|hortalicas| - 1];
      LastEntryWins(init, i);
    }
  }

  /** The join of `fetchCultivosDetalhados`: each cultivation is paired with
      the catalogue entry its crop id selects; cultivations whose crop is not
      in the catalogue are dropped. */
  function JuntarComMapa(cultivos: seq<Cultivo>, mapa: map<int, Hortalica>): (r: seq<CultivoDetalhado>)
    ensures |r| <= |cultivos|
    ensures forall i :: 0 <= i < |r| ==>
              r[i].cultivo in cultivos && r[i].cultivo.hortalica in mapa
              && r[i].hortalica == mapa[r[i].cultivo.hortalica]
    ensures forall c :: c in cultivos && c.hortalica in mapa ==> CultivoDetalhado(c, mapa[c.hortalica]) in r
  {
    if cultivos == [] then []
    else
      var c := cultivos[0];
      (if c.hortalica in mapa then [CultivoDetalhado(c, mapa[c.hortalica])] else [])
      + JuntarComMapa(cultivos[1..], mapa)
  }

  function Juntar(cultivos: seq<Cultivo>, hortalicas: seq<Hortalica>): seq<CultivoDetalhado> {
    JuntarComMapa(cultivos, MapaHortalicas(hortalicas))
  }

  /** Every joined pair matches: its crop is a catalogue entry whose id is
      the cultivation's crop id. */
  lemma JoinMatchesIds(cultivos: seq<Cultivo>, hortalicas: seq<Hortalica>)
    ensures forall i :: 0 <= i < |Juntar(cultivos, hortalicas)| ==>
              var p := Juntar(cultivos, hortalicas)[i];
              p.hortalica in hortalicas && p.hortalica.id == p.cultivo.hortalica
  {
  }

  /** The join follows the cultivation order: joining a list made of two
      parts joins each part and concatenates the results. */
  lemma {:induction false} JoinKeepsOrder(a: seq<Cultivo>, b: seq<Cultivo>, mapa: map<int, Hortalica>)
    ensures JuntarComMapa(a + b, mapa) == JuntarComMapa(a, mapa) + JuntarComMapa(b, mapa)
    decreases |a|
  {
    if a == [] {
      assert a + b == b;
    } else {
      assert (a + b)[0] == a[0];
      assert (a + b)[1..] == a[1..] + b;
      JoinKeepsOrder(a[1..], b, mapa);
    }
  }

  /** When every crop id is in the catalogue nothing is dropped: the join
      pairs the cultivations one-to-one, in order. */
  lemma {:induction false} JoinCompleteWhenAllKnown(cultivos: seq<Cultivo>, mapa: map<int, Hortalica>)
    requires forall i :: 0 <= i < |cultivos| ==> cultivos[i].hortalica in mapa
    ensures |JuntarComMapa(cultivos, mapa)| == |cultivos|
    ensures forall i :: 0 <= i < |cultivos| ==>
              JuntarComMapa(cultivos, mapa)[i] == CultivoDetalhado(cultivos[i], mapa[cultivos[i].hortalica])
    decreases |cultivos|
  {
    if cultivos != [] {
      JoinCompleteWhenAllKnown(cultivos[1..], mapa);
    }
  }

  /** A cultivation whose crop id is unknown appears in no joined pair. */
  lemma UnknownCropDropped(cultivos: seq<Cultivo>, hortalicas: seq<Hortalica>, c: Cultivo)
    requires forall j :: 0 <= j < |hortalicas| ==> hortalicas[j].id != c.hortalica
    ensures forall i :: 0 <= i < |Juntar(cultivos, hortalicas)| ==> Juntar(cultivos, hortalicas)[i].cultivo != c
  {
  }

  /** `fetchCultivosDetalhados`: the garden's cultivations joined with the
      catalogue. Every pair is sound, and every cultivation of the garden
      whose crop id is in the catalogue is there, with the table's entry. */
  function FetchCultivosDetalhados(todos: seq<Cultivo>, hortaId: int, hortalicas: seq<Hortalica>)
    : (r: seq<CultivoDetalhado>)
    ensures |r| <= |todos|
    ensures forall i :: 0 <= i < |r| ==>
              r[i].cultivo in todos && r[i].cultivo.horta == hortaId
              && r[i].hortalica in hortalicas && r[i].hortalica.id == r[i].cultivo.hortalica
    ensures forall c :: c in todos && c.horta == hortaId
                        && (exists j :: 0 <= j < |hortalicas| && hortalicas[j].id == c.hortalica) ==>
              CultivoDetalhado(c, MapaHortalicas(hortalicas)[c.hortalica]) in r
  {
    var cultivos := FetchCultivos(todos, hortaId);
    JoinMatchesIds(cultivos, hortalicas);
    Juntar(cultivos, hortalicas)
  }

  // ---------------------------------------------------------------------
  // Error text.

  /** The service calls whose failures carry a fixed fallback message. */
  datatype Operacao =
    | CarregarHortas | CriarHorta | ExcluirHorta | CarregarHortalicas
    | CarregarCultivos | CriarCultivo | ExcluirCultivo | CarregarCalendario
    | CarregarCronograma | GerarPdf | CalcularDimensionamento

  function MensagemPadrao(op: Operacao): (msg: string)
    ensures msg != []
  {
    match op
    case CarregarHortas => "Erro ao carregar hortas"
    case CriarHorta => "Erro ao criar horta"
    case ExcluirHorta => "Erro ao excluir horta"
    case CarregarHortalicas => "Erro ao carregar hortaliças"
    case CarregarCultivos => "Erro ao carregar cultivos"
    case CriarCultivo => "Erro ao criar cultivo"
    case ExcluirCultivo => "Erro ao excluir cultivo"
    case CarregarCalendario => "Erro ao carregar calendário"
    case CarregarCronograma => "Erro ao carregar cronograma"
    case GerarPdf => "Erro ao gerar PDF"
    case CalcularDimensionamento => "Erro ao calcular dimensionamento"
  }

  /** The fallback texts are pairwise distinct: a message shown without a
      server `detail` tells which operation failed. */
  lemma FallbackIdentifiesOperacao(op1: Operacao, op2: Operacao, detail: Option<string>)
    requires detail.None? || detail.value == []
    requires MensagemDeErro(detail, op1) == MensagemDeErro(detail, op2)
    ensures op1 == op2
  {
  }

  /** `error.response?.data?.detail || fallback`: the server's `detail` when
      it is a non-empty string, the operation's fixed message otherwise. The
      text is never empty. */
  function MensagemDeErro(detail: Option<string>, op: Operacao): (msg: string)
    ensures msg != []
    ensures detail.Some? && detail.value != [] ==> msg == detail.value
    ensures detail.None? || detail.value == [] ==> msg == MensagemPadrao(op)
  {
    match detail
    case Some(d) => if d != [] then d else MensagemPadrao(op)
    case None => MensagemPadrao(op)
  }
}
