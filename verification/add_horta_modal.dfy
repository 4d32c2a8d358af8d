/** The new-garden dialog (`AddHortaModal.js`): `handleSave` hands the typed
    name to the `onSave` callback only when it is not blank, then clears
    the field. */
module AddHortaModal {
  import opened Values
  import opened Text

  /** The dialog's state: the text of the name field. */
  datatype Modal = Modal(nomeHorta: string)

  /** What `onSave` receives. */
  datatype NovaHorta = NovaHorta(nome: string)

  /** The effect of pressing save: the new state and the callback's
      argument, None when the callback is not called. */
  datatype Efeito = Efeito(modal: Modal, onSave: Option<NovaHorta>)

  /** `handleSave`. The check trims, but the callback receives the text as
      typed. */
  function HandleSave(m: Modal): (e: Efeito)
    ensures e.onSave.Some? <==> !IsBlank(m.nomeHorta)
    ensures e.onSave.Some? ==> e.onSave.value.nome == m.nomeHorta && e.modal.nomeHorta == []
    ensures e.onSave.None? ==> e.modal == m
  {
    if Trim(m.nomeHorta) != [] then Efeito(Modal([]), Some(NovaHorta(m.nomeHorta)))
    else Efeito(m, None)
  }

  /** A second press right after a save does nothing: the cleared field is
      blank, so the callback fires at most once per typed name. */
  lemma SaveOnce(m: Modal)
    ensures var after := HandleSave(m).modal;
            HandleSave(after) == Efeito(after, None)
  {
  }

  /** Whatever is passed to `onSave` has a non-blank trimmed form, which is
      what the garden list screen needs to post it. */
  lemma SavedNameHasContent(m: Modal)
    requires HandleSave(m).onSave.Some?
    ensures Trim(HandleSave(m).onSave.value.nome) != []
  {
  }
}
