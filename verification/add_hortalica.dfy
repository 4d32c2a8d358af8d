/** The form logic of the add-crop screen (`AddHortalicaScreen.js`): the
    ordered required-field checks and the cultivation payload of
    `handleSalvar`, and the module-count update of
    `handleCalculoDimensionamento`. `parseInt` and `parseFloat` are
    parameters: their text parsing is not modelled. */
module AddHortalica {
  import opened Values
  import opened Text

  /** The fields `handleSalvar` reads. The selected crop id is null until a
      crop is chosen. */
  datatype Form = Form(
    selectedHortalicaId: Option<int>,
    numModulos: string,
    producaoSemanal: string,
    dataInicio: string)

  /** The four required-field alerts, in the order they are checked. */
  datatype Aviso = SemHortalica | SemModulos | SemProducao | SemData

  function Mensagem(a: Aviso): string {
    match a
    case SemHortalica => "Selecione uma hortaliça."
    case SemModulos => "Informe o número de módulos."
    case SemProducao => "Informe a produção semanal desejada."
    case SemData => "Selecione uma data de início."
  }

  /** The body posted to create the cultivation. */
  datatype CultivoPayload = CultivoPayload(
    horta: int,
    hortalica: int,
    numModulos: JsNumber,
    producaoSemanalDesejada: JsNumber,
    dataInicio: string)

  /** What pressing save does: one alert, or one create request. */
  datatype Salvar = Alerta(aviso: Aviso) | Criar(payload: CultivoPayload)

  /** JavaScript truthiness of the selected id: null and 0 are falsy. */
  predicate Selecionada(id: Option<int>) {
    id.Some? && id.value != 0
  }

  /** `handleSalvar`: the checks run in order and the first failing one
      raises its alert; when all pass, the payload carries the garden id,
      the selected crop, the parsed fields and the start date verbatim. */
  function HandleSalvar(hortaId: int, f: Form, parseInt: string -> JsNumber, parseFloat: string -> JsNumber)
    : (r: Salvar)
    ensures r == Alerta(SemHortalica) <==> !Selecionada(f.selectedHortalicaId)
    ensures r == Alerta(SemModulos) <==> Selecionada(f.selectedHortalicaId) && IsBlank(f.numModulos)
    ensures r == Alerta(SemProducao) <==>
              Selecionada(f.selectedHortalicaId) && !IsBlank(f.numModulos) && IsBlank(f.producaoSemanal)
    ensures r == Alerta(SemData) <==>
              Selecionada(f.selectedHortalicaId) && !IsBlank(f.numModulos) && !IsBlank(f.producaoSemanal)
              && IsBlank(f.dataInicio)
    ensures r.Criar? ==>
              && r.payload.horta == hortaId
              && Some(r.payload.hortalica) == f.selectedHortalicaId
              && r.payload.numModulos == parseInt(f.numModulos)
              && r.payload.producaoSemanalDesejada == parseFloat(f.producaoSemanal)
              && r.payload.dataInicio == f.dataInicio
  {
    if !Selecionada(f.selectedHortalicaId) then Alerta(SemHortalica)
    else if Trim(f.numModulos) == [] then Alerta(SemModulos)
    else if Trim(f.producaoSemanal) == [] then Alerta(SemProducao)
    else if Trim(f.dataInicio) == [] then Alerta(SemData)
    else Criar(CultivoPayload(
      hortaId, f.selectedHortalicaId.value,
      parseInt(f.numModulos), parseFloat(f.producaoSemanal), f.dataInicio))
  }

  /** Every check that fails on the form, in checking order. */
  function Falhas(f: Form): seq<Aviso> {
    (if !Selecionada(f.selectedHortalicaId) then [SemHortalica] else [])
    + (if IsBlank(f.numModulos) then [SemModulos] else [])
    + (if IsBlank(f.producaoSemanal) then [SemProducao] else [])
    + (if IsBlank(f.dataInicio) then [SemData] else [])
  }

  /** Only the first failure is reported, and a request is built exactly
      when nothing fails. */
  lemma OnlyFirstFailureReported(hortaId: int, f: Form, parseInt: string -> JsNumber, parseFloat: string -> JsNumber)
    ensures Falhas(f) == [] <==> HandleSalvar(hortaId, f, parseInt, parseFloat).Criar?
    ensures Falhas(f) != [] ==> HandleSalvar(hortaId, f, parseInt, parseFloat) == Alerta(Falhas(f)[0])
  {
  }

  // ---------------------------------------------------------------------
  // The sizing shortcut.

  /** `handleCalculoDimensionamento` before the request: a blank production
      field is refused with an alert; otherwise sizing is requested for the
      selected crop with the parsed production. */
  datatype PedidoCalculo = Recusado | Pedido(hortalicaId: Option<int>, producao: JsNumber)

  function HandleCalculoDimensionamento(f: Form, parseFloat: string -> JsNumber): (r: PedidoCalculo)
    ensures r.Recusado? <==> IsBlank(f.producaoSemanal)
    ensures r.Pedido? ==> r.hortalicaId == f.selectedHortalicaId && r.producao == parseFloat(f.producaoSemanal)
  {
    if Trim(f.producaoSemanal) == [] then Recusado
    else Pedido(f.selectedHortalicaId, parseFloat(f.producaoSemanal))
  }

  /** The answer to a sizing request: an error (any failed request), or the
      response body, whose `num_modulos_calculado` may be absent. */
  datatype RespostaCalculo = Falhou(mensagem: string) | Dados(numModulosCalculado: Option<int>)

  /** The module-count field after the answer: the decimal text of the
      computed count, or "1" when the body has none; unchanged on an error. */
  function AplicarCalculo(numModulos: string, resposta: RespostaCalculo): (r: string)
    ensures resposta.Falhou? ==> r == numModulos
    ensures resposta.Dados? && resposta.numModulosCalculado.None? ==> r == "1"
    ensures resposta.Dados? && resposta.numModulosCalculado.Some? ==>
              ParseDecimal(r) == resposta.numModulosCalculado
    ensures resposta.Dados? ==> !IsBlank(r)
  {
    match resposta
    case Falhou(_) => numModulos
    case Dados(None) =>
      assert !IsSpace("1"[0]);
      "1"
    case Dados(Some(n)) =>
      var t := IntToDecimal(n);
      DecimalRoundTrip(n);
      DecimalNotBlank(n);
      // `toString()` of a number is never the empty string, so `|| '1'`
      // does not replace it (not even "0").
      if t != [] then t else "1"
  }

  /** The decimal text of a number contains no white space. */
  lemma DecimalNotBlank(n: int)
    ensures !IsBlank(IntToDecimal(n))
  {
    var t := IntToDecimal(n);
    if n < 0 {
      assert !IsSpace(t[0]);
    } else {
      assert IsDigit(t[0]);
      assert !IsSpace(t[0]);
    }
  }

  /** After a successful sizing the form passes the module-count check of
      `handleSalvar`. */
  lemma SizingFillsModules(f: Form, resposta: RespostaCalculo, hortaId: int,
                           parseInt: string -> JsNumber, parseFloat: string -> JsNumber)
    requires resposta.Dados?
    ensures HandleSalvar(hortaId, f.(numModulos := AplicarCalculo(f.numModulos, resposta)), parseInt, parseFloat)
            != Alerta(SemModulos)
  {
  }
}
