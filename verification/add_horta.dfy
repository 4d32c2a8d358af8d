/** The new-garden form (`AddHortaScreen.js`): `handleSalvar` refuses a blank
    name and otherwise normalises the three fields into the creation
    payload. `parseFloat` is a parameter: its text parsing is not
    modelled. */
module AddHorta {
  import opened Values
  import opened Text

  /** The three text fields as typed. */
  datatype Form = Form(nome: string, localizacao: string, areaTotal: string)

  /** The body posted to create the garden; null fields are None. */
  datatype HortaPayload = HortaPayload(
    nome: string,
    localizacao: Option<string>,
    areaTotal: Option<JsNumber>)

  const NomeObrigatorio := "O nome da horta é obrigatório."

  /** Pressing save: an alert, or one create request. */
  datatype Salvar = Alerta(mensagem: string) | Criar(payload: HortaPayload)

  /** `handleSalvar`. The name is trimmed; the location is trimmed and
      becomes null when nothing is left; the area is null only when the
      field is the empty string (`areaTotal ? … : null`), so text of white
      space alone is still handed to `parseFloat`. */
  function HandleSalvar(f: Form, parseFloat: string -> JsNumber): (r: Salvar)
    ensures r.Alerta? <==> IsBlank(f.nome)
    ensures r.Alerta? ==> r.mensagem == NomeObrigatorio
    ensures r.Criar? ==>
              && r.payload.nome == Trim(f.nome)
              && (r.payload.localizacao.None? <==> IsBlank(f.localizacao))
              && (r.payload.localizacao.Some? ==> r.payload.localizacao.value == Trim(f.localizacao))
              && (r.payload.areaTotal.None? <==> f.areaTotal == [])
              && (r.payload.areaTotal.Some? ==> r.payload.areaTotal.value == parseFloat(f.areaTotal))
  {
    if Trim(f.nome) == [] then Alerta(NomeObrigatorio)
    else
      var loc := Trim(f.localizacao);
      Criar(HortaPayload(
        Trim(f.nome),
        if loc != [] then Some(loc) else None,
        if f.areaTotal != [] then Some(parseFloat(f.areaTotal)) else None))
  }

  /** The text fields of a payload are already normalised: the name is
      non-empty, and trimming either text again changes nothing. */
  lemma PayloadNormalised(f: Form, parseFloat: string -> JsNumber)
    requires HandleSalvar(f, parseFloat).Criar?
    ensures var p := HandleSalvar(f, parseFloat).payload;
            && p.nome != [] && Trim(p.nome) == p.nome
            && (p.localizacao.Some? ==> p.localizacao.value != [] && Trim(p.localizacao.value) == p.localizacao.value)
  {
    TrimIdempotent(f.nome);
    TrimIdempotent(f.localizacao);
  }

  /** Saving the normalised name and location again, with the area text as
      typed, builds the same payload: the normalisation is idempotent. */
  lemma ResaveSamePayload(f: Form, parseFloat: string -> JsNumber)
    requires HandleSalvar(f, parseFloat).Criar?
    ensures var p := HandleSalvar(f, parseFloat).payload;
            HandleSalvar(Form(p.nome, p.localizacao.GetOr([]), f.areaTotal), parseFloat) == Criar(p)
  {
    TrimIdempotent(f.nome);
    TrimIdempotent(f.localizacao);
  }
}
