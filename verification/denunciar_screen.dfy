/**
 * The complaint form: the predefined categories and the title derived from the
 * chosen one, the required-field check, the full-address text, the record
 * handed to the document store, the outcome of a submission, and the address
 * pre-fill from a location lookup.
 */
module DenunciarScreen {
  import opened Wrappers
  import FirebaseAuth
  import FormRules
  import JsText

  datatype Category = Category(id: string, labelText: string)

  const OtherId := "outro"
  const OtherFallbackTitle := "Outro problema"

  /** `PROBLEM_CATEGORIES`, in display order. */
  const ProblemCategories: seq<Category> := [
    Category("buraco", "Buraco na via"),
    Category("poste_sem_luz", "Poste sem luz"),
    Category("lixo_acumulado", "Lixo acumulado"),
    Category("esgoto_entupido", "Esgoto entupido"),
    Category("sinalizacao_danificada", "Sinalização danificada"),
    Category("calçada_danificada", "Calçada danificada"),
    Category("arvore_caida", "Árvore caída"),
    Category("iluminacao_publica", "Iluminação pública"),
    Category("transito", "Problema de trânsito"),
    Category(OtherId, "Outro")]

  /** `categories.find(cat => cat.id === id)`: the first category with that id. */
  function FindCategory(categories: seq<Category>, id: string): (r: Option<Category>)
    ensures r.None? <==> forall i :: 0 <= i < |categories| ==> categories[i].id != id
    ensures r.Some? ==> exists i :: 0 <= i < |categories| && categories[i] == r.value
                                    && forall j :: 0 <= j < i ==> categories[j].id != id
    ensures r.Some? ==> r.value.id == id
  {
    if categories == [] then None
    else if categories[0].id == id then Some(categories[0])
    else
      var r := FindCategory(categories[1..], id);
      if r.Some? then
        ghost var i :| 0 <= i < |categories[1..]| && categories[1..][i] == r.value
                       && forall j :: 0 <= j < i ==> categories[1..][j].id != id;
        assert categories[i + 1] == r.value;
        r
      else r
  }

  /** No two predefined categories share an id. */
  lemma CategoryIdsDistinct()
    ensures forall i, j :: 0 <= i < j < |ProblemCategories| ==> ProblemCategories[i].id != ProblemCategories[j].id
  {
  }

  /**
   * `getCategoryTitle`: for "outro" the custom text, or "Outro problema" when it
   * is empty; for another predefined id that category's label; otherwise `""`.
   */
  function CategoryTitle(selectedCategory: string, customCategory: string): (r: string)
    ensures selectedCategory == OtherId && customCategory != "" ==> r == customCategory
    ensures selectedCategory == OtherId && customCategory == "" ==> r == OtherFallbackTitle
    ensures selectedCategory != OtherId ==>
      forall i | 0 <= i < |ProblemCategories| && ProblemCategories[i].id == selectedCategory ::
        r == ProblemCategories[i].labelText
    ensures (forall i :: 0 <= i < |ProblemCategories| ==> ProblemCategories[i].id != selectedCategory)
            ==> r == ""
  {
    if selectedCategory == OtherId then
      assert ProblemCategories[|ProblemCategories| - 1].id == OtherId;
      (if customCategory != "" then customCategory else OtherFallbackTitle)
    else
      match FindCategory(ProblemCategories, selectedCategory)
      case Some(c) =>
        ghost var k :| 0 <= k < |ProblemCategories| && ProblemCategories[k] == c
                       && forall j :: 0 <= j < k ==> ProblemCategories[j].id != selectedCategory;
        CategoryIdsDistinct();
        assert forall i :: 0 <= i < |ProblemCategories| && ProblemCategories[i].id == selectedCategory ==> i == k;
        c.labelText
      case None => ""
  }

  // ---------------------------------------------------------------------------
  // The form and who is reporting

  /** The form's editable state. */
  datatype Form = Form(
    title: string,
    description: string,
    selectedCategory: string,
    customCategory: string,
    rua: string,
    bairro: string,
    cidade: string,
    estado: string,
    isAnonymous: bool)

  const EmptyForm := Form("", "", "", "", "", "", "", "", false)

  const AnonymousUserName := "Usuário Anônimo"
  const AnonymousReporter := "Anônimo"
  const AnonymousUserId := "anonymous"

  /** Who is submitting, as captured when the screen opens: the account id (if signed in) and a display name. */
  datatype Reporter = Reporter(userId: Option<string>, reporterName: string)

  /** The screen's start-up effect: the signed-in user's id and name, the name defaulting to "Usuário Anônimo". */
  function ReporterFor(currentUser: Option<FirebaseAuth.UserData>): (r: Reporter)
    ensures currentUser.None? ==> r == Reporter(None, AnonymousUserName)
    ensures currentUser.Some? ==> r.userId == Some(currentUser.value.uid)
    ensures currentUser.Some? && currentUser.value.nomeCompleto != "" ==>
      r.reporterName == currentUser.value.nomeCompleto
    ensures currentUser.Some? && currentUser.value.nomeCompleto == "" ==>
      r.reporterName == AnonymousUserName
  {
    match currentUser
    case None => Reporter(None, AnonymousUserName)
    case Some(u) =>
      Reporter(Some(u.uid), if u.nomeCompleto != "" then u.nomeCompleto else AnonymousUserName)
  }

  /** A signed-in account without a display name reports as "Usuário Anônimo". */
  lemma NamelessAccountIsAnonymousUser(u: FirebaseAuth.AuthUser, createdAt: int, loginAt: int)
    requires u.displayName.None? || u.displayName == Some("")
    ensures ReporterFor(FirebaseAuth.CurrentUser(Some(u), createdAt, loginAt))
         == Reporter(Some(u.uid), AnonymousUserName)
  {
  }

  // ---------------------------------------------------------------------------
  // Submission

  const MissingFieldsMsg := "Por favor, preencha todos os campos obrigatórios."
  const SubmittedMsg := "Denúncia enviada com sucesso!"
  const SubmitFailedPrefix := "Erro ao enviar denúncia: "
  const UnknownErrorText := "Erro desconhecido"

  /** The six fields the submit check requires, in the order it tests them. */
  function RequiredFields(f: Form): seq<string> {
    [f.selectedCategory, f.description, f.rua, f.bairro, f.cidade, f.estado]
  }

  /** A required field is the empty string. Only emptiness counts: whitespace passes. */
  function MissingRequired(f: Form): (r: bool)
    ensures r <==> "" in RequiredFields(f)
  {
    || f.selectedCategory == "" || f.description == ""
    || f.rua == "" || f.bairro == "" || f.cidade == "" || f.estado == ""
  }

  /**
   * Unlike the account forms, the complaint form does not trim: every non-empty
   * field counts as filled in, including one of only spaces that those forms call blank.
   */
  lemma SpacesCountAsFilled(f: Form)
    requires forall i | 0 <= i < |RequiredFields(f)| :: RequiredFields(f)[i] != ""
    ensures !MissingRequired(f)
    ensures forall i | 0 <= i < |RequiredFields(f)| && JsText.AllWhitespace(RequiredFields(f)[i]) ::
      FormRules.Blank(RequiredFields(f)[i])
  {
    forall i | 0 <= i < |RequiredFields(f)| && JsText.AllWhitespace(RequiredFields(f)[i])
      ensures FormRules.Blank(RequiredFields(f)[i])
    {
      FormRules.BlankIff(RequiredFields(f)[i]);
    }
  }

  /** The address as one line: `rua, bairro, cidade - estado`. */
  function FullAddress(rua: string, bairro: string, cidade: string, estado: string): (r: string)
    ensures |r| == |rua| + |bairro| + |cidade| + |estado| + 7
    ensures r[..|rua|] == rua && r[|r| - |estado|..] == estado
  {
    rua + ", " + bairro + ", " + cidade + " - " + estado
  }

  /** The creation time is assigned by the server; the record only carries that request. */
  datatype Timestamp = ServerTimestamp

  /** The document handed to the store's `add`. */
  datatype DenunciationData = DenunciationData(
    title: string,
    category: string,
    customCategory: string,
    description: string,
    location: string,
    rua: string,
    bairro: string,
    cidade: string,
    estado: string,
    isAnonymous: bool,
    reporterName: string,
    userId: string,
    timestamp: Timestamp,
    status: string,
    likes: seq<string>,
    dislikes: seq<string>,
    imageUrl: string)

  const UnresolvedStatus := "Não Resolvido"

  /** `denunciationData`: a fresh, unresolved, unvoted record without a picture. */
  function BuildRecord(f: Form, who: Reporter): (r: DenunciationData)
    ensures r.status == UnresolvedStatus && r.likes == [] && r.dislikes == [] && r.imageUrl == ""
    ensures r.title == CategoryTitle(f.selectedCategory, f.customCategory)
    ensures r.category == f.selectedCategory && r.description == f.description
    ensures r.customCategory == (if f.selectedCategory == OtherId then f.customCategory else "")
    ensures r.location == FullAddress(f.rua, f.bairro, f.cidade, f.estado)
    ensures (r.rua, r.bairro, r.cidade, r.estado) == (f.rua, f.bairro, f.cidade, f.estado)
    ensures r.isAnonymous == f.isAnonymous
    ensures r.reporterName == (if f.isAnonymous then AnonymousReporter else who.reporterName)
    ensures who.userId.None? || who.userId == Some("") ==> r.userId == AnonymousUserId
    ensures who.userId.Some? && who.userId.value != "" ==> r.userId == who.userId.value
  {
    DenunciationData(
      CategoryTitle(f.selectedCategory, f.customCategory),
      f.selectedCategory,
      if f.selectedCategory == OtherId then f.customCategory else "",
      f.description,
      FullAddress(f.rua, f.bairro, f.cidade, f.estado),
      f.rua, f.bairro, f.cidade, f.estado,
      f.isAnonymous,
      if f.isAnonymous then AnonymousReporter else who.reporterName,
      // `userId || 'anonymous'`: an empty id is falsy too
      if who.userId.Some? && who.userId.value != "" then who.userId.value else AnonymousUserId,
      ServerTimestamp,
      UnresolvedStatus, [], [], "")
  }

  /** What the store's `add` did: stored, or rejected with an error message (possibly empty). */
  datatype AddOutcome = Added | AddFailed(message: string)

  datatype MessageType = NoMessage | SuccessMessage | ErrorMessage

  /** After a submission: the form, the banner shown, and the record sent to the store, if one was. */
  datatype Submission = Submission(form: Form, message: string, messageType: MessageType, sent: Option<DenunciationData>)

  /** `handleSubmit`; `add` is what the document store does with the record. */
  function HandleSubmit(f: Form, who: Reporter, add: AddOutcome): (r: Submission)
    ensures MissingRequired(f) <==> r.sent.None?
    ensures MissingRequired(f) ==> r == Submission(f, MissingFieldsMsg, ErrorMessage, None)
    ensures r.sent.Some? ==> r.sent.value == BuildRecord(f, who)
    ensures r.sent.Some? && add.Added? ==>
      r.form == EmptyForm && r.message == SubmittedMsg && r.messageType == SuccessMessage
    ensures r.sent.Some? && add.AddFailed? ==>
      && r.form == f && r.messageType == ErrorMessage
      && r.message == SubmitFailedPrefix + (if add.message != "" then add.message else UnknownErrorText)
  {
    if MissingRequired(f) then Submission(f, MissingFieldsMsg, ErrorMessage, None)
    else
      var record := BuildRecord(f, who);
      match add
      case Added => Submission(EmptyForm, SubmittedMsg, SuccessMessage, Some(record))
      case AddFailed(m) =>
        Submission(f, SubmitFailedPrefix + (if m != "" then m else UnknownErrorText), ErrorMessage, Some(record))
  }

  /** "outro" with no custom text still passes the check, and its record is titled "Outro problema". */
  lemma OtherWithoutTextIsAccepted(f: Form, who: Reporter, add: AddOutcome)
    requires f.selectedCategory == OtherId && f.customCategory == ""
    requires f.description != "" && f.rua != "" && f.bairro != "" && f.cidade != "" && f.estado != ""
    ensures HandleSubmit(f, who, add).sent.Some?
    ensures HandleSubmit(f, who, add).sent.value.title == OtherFallbackTitle
    ensures HandleSubmit(f, who, add).sent.value.customCategory == ""
  {
  }

  /** A successful submission clears the form, so pressing submit again sends nothing. */
  lemma {:induction false} NoDoubleSubmit(f: Form, who: Reporter, add: AddOutcome)
    requires HandleSubmit(f, who, Added).sent.Some?
    ensures HandleSubmit(HandleSubmit(f, who, Added).form, who, add).sent.None?
  {
    assert HandleSubmit(f, who, Added).form == EmptyForm;
  }

  // ---------------------------------------------------------------------------
  // Pre-filling the address from the device location

  datatype Address = Address(street: string, neighborhood: string, city: string, state: string)

  /** A location lookup's answer; coordinates are not used by the form. */
  datatype LocationData = LocationData(address: Option<Address>)

  const LocationFilledMsg := "Localização obtida e endereço preenchido automaticamente!"
  const LocationFailedMsg := "Não foi possível obter sua localização. Tente novamente."

  /** After a location lookup: the form and the alert shown (`success` tells which title). */
  datatype Prefill = Prefill(form: Form, success: bool, alert: string)

  /**
   * `getCurrentLocation`. `lookup` is `None` when the lookup failed or returned
   * nothing; an answer without an address is treated the same way.
   */
  function PrefillAddress(f: Form, lookup: Option<LocationData>): (r: Prefill)
    ensures r.success <==> lookup.Some? && lookup.value.address.Some?
    ensures r.success ==>
      var a := lookup.value.address.value;
      r.form == f.(rua := a.street, bairro := a.neighborhood, cidade := a.city, estado := a.state)
      && r.alert == LocationFilledMsg
    ensures !r.success ==> r.form == f && r.alert == LocationFailedMsg
  {
    if lookup.Some? && lookup.value.address.Some? then
      var a := lookup.value.address.value;
      Prefill(f.(rua := a.street, bairro := a.neighborhood, cidade := a.city, estado := a.state),
              true, LocationFilledMsg)
    else Prefill(f, false, LocationFailedMsg)
  }
}
