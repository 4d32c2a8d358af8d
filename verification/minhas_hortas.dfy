/** The garden list of the React Native client (`MinhasHortasScreen.js`):
    turning the listed gardens into cards on load, and appending a card when
    a garden is created from the dialog. The list request answers `[]` when
    its body is not an array (`HortaService.list`). */
module MinhasHortas {
  import opened Values
  import opened Text

  /** A garden as the API returns it; `qtd_plantas` may be null or absent. */
  datatype ApiHorta = ApiHorta(id: int, nome: string, qtdPlantas: Option<int>)

  /** A card of the list. */
  datatype Card = Card(
    id: string,
    nome: string,
    qtdPlantas: int,
    status: string,
    fotoUrl: Option<string>)

  const Saudavel := "Saudável"

  /** The screen state this logic changes. */
  datatype Tela = Tela(hortas: seq<Card>, modalVisible: bool)

  /** The outcome of the list request: it failed, its body was not an
      array, or it was the array of gardens. */
  datatype Listagem = Falhou | NaoLista | Lista(itens: seq<ApiHorta>)

  /** The card of one listed garden: the id as text, the plant count or 0
      when it is null (`??` keeps a 0), a fixed status and no photo. */
  function ParaCard(h: ApiHorta): (c: Card)
    ensures ParseDecimal(c.id) == Some(h.id)
    ensures c.nome == h.nome
    ensures h.qtdPlantas.Some? ==> c.qtdPlantas == h.qtdPlantas.value
    ensures h.qtdPlantas.None? ==> c.qtdPlantas == 0
    ensures c.status == Saudavel && c.fotoUrl.None?
  {
    DecimalRoundTrip(h.id);
    Card(IntToDecimal(h.id), h.nome, h.qtdPlantas.GetOr(0), Saudavel, None)
  }

  /** `load`: on success the list is replaced by the cards, one per listed
      garden in the same order (none when the body was not an array); on
      failure the list is left as it was. */
  method Load(st: Tela, listagem: Listagem) returns (r: Tela)
    ensures r.modalVisible == st.modalVisible
    ensures listagem.Falhou? ==> r == st
    ensures listagem.NaoLista? ==> r.hortas == []
    ensures listagem.Lista? ==>
              |r.hortas| == |listagem.itens|
              && forall i :: 0 <= i < |r.hortas| ==> r.hortas[i] == ParaCard(listagem.itens[i])
  {
    match listagem
    case Falhou => r := st;
    case NaoLista => r := st.(hortas := []);
    case Lista(itens) =>
      var cards: seq<Card> := [];
      var i := 0;
      while i < |itens|
        invariant 0 <= i <= |itens|
        invariant |cards| == i
        invariant forall k :: 0 <= k < i ==> cards[k] == ParaCard(itens[k])
      {
        cards := cards + [ParaCard(itens[i])];
        i := i + 1;
      }
      r := st.(hortas := cards);
  }

  /** Distinct garden ids give distinct card ids, so the cards' list keys
      never collide. */
  lemma CardIdsDistinct(a: ApiHorta, b: ApiHorta)
    requires a.id != b.id
    ensures ParaCard(a).id != ParaCard(b).id
  {
    if ParaCard(a).id == ParaCard(b).id {
      DecimalInjective(a.id, b.id);
    }
  }

  /** The body of the create request: the name only. */
  datatype CreatePayload = CreatePayload(nome: string)

  /** The outcome of the create request: it failed, or the created garden. */
  datatype Criacao = Erro | Criada(horta: ApiHorta)

  /** `handleAddHorta`: the request sends the dialog's name; on success one
      card for the created garden, with no plants, the fixed status and no
      photo, is appended and the
      dialog closes; on failure nothing changes. */
  function HandleAddHorta(st: Tela, nome: string, criacao: Criacao): (r: (CreatePayload, Tela))
    ensures r.0 == CreatePayload(nome)
    ensures criacao.Erro? ==> r.1 == st
    ensures criacao.Criada? ==>
              && |r.1.hortas| == |st.hortas| + 1
              && r.1.hortas[..|st.hortas|] == st.hortas
              && ParseDecimal(r.1.hortas[|st.hortas|].id) == Some(criacao.horta.id)
              && r.1.hortas[|st.hortas|].nome == criacao.horta.nome
              && r.1.hortas[|st.hortas|].qtdPlantas == 0
              && r.1.hortas[|st.hortas|].status == Saudavel
              && r.1.hortas[|st.hortas|].fotoUrl.None?
              && !r.1.modalVisible
  {
    match criacao
    case Erro => (CreatePayload(nome), st)
    case Criada(h) =>
      DecimalRoundTrip(h.id);
      var card := Card(IntToDecimal(h.id), h.nome, 0, Saudavel, None);
      (CreatePayload(nome), Tela(st.hortas + [card], false))
  }

  /** Card ids that read back as distinct numbers stay distinct after a
      creation whose id is new. */
  lemma AddKeepsIdsDistinct(st: Tela, nome: string, h: ApiHorta)
    requires forall i, j :: 0 <= i < j < |st.hortas| ==> st.hortas[i].id != st.hortas[j].id
    requires forall i :: 0 <= i < |st.hortas| ==> ParseDecimal(st.hortas[i].id) != Some(h.id)
    ensures var hs := HandleAddHorta(st, nome, Criada(h)).1.hortas;
            forall i, j :: 0 <= i < j < |hs| ==> hs[i].id != hs[j].id
  {
    var hs := HandleAddHorta(st, nome, Criada(h)).1.hortas;
    forall i, j | 0 <= i < j < |hs|
      ensures hs[i].id != hs[j].id
    {
      if j == |st.hortas| {
        assert hs[i] == st.hortas[i];
        assert ParseDecimal(hs[j].id) == Some(h.id);
      } else {
        assert hs[i] == st.hortas[i] && hs[j] == st.hortas[j];
      }
    }
  }
}
