/** The four-step sign-up form of `src/pages/auth/Register.jsx`: field updates, the
    step-1 rules, the size and type check on identity images, the step counter and
    the multipart body the submit sends. */
module RegisterPage {
  import opened Wrappers
  import opened Js
  import opened Gateway
  import Browser
  import AuthService
  import AuthContext
  import LoginPage

  const TotalSteps := 4
  /** 5 MB: the largest accepted image, in bytes. */
  const MaxFileSize := 5 * 1024 * 1024
  const MinPasswordLength := 6
  const ImageTypePrefix := "image/"
  const UserDashboard := "/user/dashboard"

  const NameRequired := "Name is required"
  const EmailRequired := "Email is required"
  const EmailInvalid := "Email is invalid"
  const ContactRequired := "Contact number is required"
  const ContactInvalid := "Contact number must be 10 digits"
  const PasswordRequired := "Password is required"
  const PasswordTooShort := "Password must be at least 6 characters"
  const ConfirmRequired := "Please confirm your password"
  const PasswordsDiffer := "Passwords do not match"
  const FileTooLarge := "File size must be less than 5MB"
  const FileNotImage := "Only image files are allowed"

  datatype Form = Form(name: string, email: string, contactNumber: string, password: string, confirmPassword: string)

  const EmptyForm := Form("", "", "", "", "")

  datatype Field = Name | Email | ContactNumber | Password | ConfirmPassword {
    /** The field's name in the form and in the multipart body. */
    function Key(): string {
      match this
      case Name => "name"
      case Email => "email"
      case ContactNumber => "contactNumber"
      case Password => "password"
      case ConfirmPassword => "confirmPassword"
    }
  }

  /** The three identity images, in the order the submit appends them. */
  datatype Slot = IdFront | IdBack | Selfie {
    function Key(): string {
      match this
      case IdFront => "idFrontImage"
      case IdBack => "idBackImage"
      case Selfie => "selfieImage"
    }
  }

  /** The keys of the `errors` object: one per form field, one per image slot, and
      `submit`. */
  datatype ErrorKey = FieldError(field: Field) | SlotError(slot: Slot) | SubmitError

  function Lookup(errors: map<ErrorKey, string>, key: ErrorKey): Option<string> {
    if key in errors then Some(errors[key]) else None
  }

  /** `/\S+@\S+\.\S+/.test(s)`, unanchored: somewhere an `@` preceded by a
      non-space, then a run of non-spaces containing a later dot, then a non-space. */
  predicate IsLooseEmail(s: string) {
    exists at, dot | 0 <= at < |s| && 0 <= dot < |s| :: LooseEmailAt(s, at, dot)
  }

  /** The `@` of a match of `\S+@\S+\.\S+` is at `at` and its dot at `dot`. */
  predicate LooseEmailAt(s: string, at: int, dot: int) {
    && 0 < at && at + 1 < dot < |s| - 1
    && s[at] == '@' && s[dot] == '.'
    && !IsWhitespace(s[at - 1]) && !IsWhitespace(s[dot + 1])
    && (forall i :: at < i < dot ==> !IsWhitespace(s[i]))
  }

  /** Every address the login page accepts is accepted here too. */
  lemma LoginAddressIsLooseEmail(s: string)
    requires LoginPage.IsEmailAddress(s)
    ensures IsLooseEmail(s)
  {
    var at, dot :| && 0 < at && at + 1 < dot < |s| - 1
                   && s[at] == '@' && s[dot] == '.'
                   && (forall i :: 0 <= i < |s| && i != at ==> LoginPage.AddressChar(s[i]));
    assert LoginPage.AddressChar(s[at - 1]) && LoginPage.AddressChar(s[dot + 1]);
    assert forall i :: at < i < dot ==> LoginPage.AddressChar(s[i]);
    assert LooseEmailAt(s, at, dot);
  }

  /** `/^\d{10}$/.test(s)`. */
  predicate IsTenDigits(s: string) {
    |s| == 10 && forall i :: 0 <= i < |s| ==> IsAsciiDigit(s[i])
  }

  /** The form passes every step-1 rule. */
  predicate Step1Valid(f: Form) {
    && !AllWhitespace(f.name)
    && IsLooseEmail(f.email)
    && IsTenDigits(f.contactNumber)
    && Utf16Length(f.password) >= MinPasswordLength
    && f.confirmPassword == f.password
  }

  /** The message each step-1 rule gives for a field, or none. Blank means empty
      after `trim()`. */
  function Step1Message(f: Form, field: Field): Option<string> {
    match field
    case Name =>
      if IsBlank(f.name) then Some(NameRequired) else None
    case Email =>
      if IsBlank(f.email) then Some(EmailRequired)
      else if !IsLooseEmail(f.email) then Some(EmailInvalid)
      else None
    case ContactNumber =>
      if IsBlank(f.contactNumber) then Some(ContactRequired)
      else if !IsTenDigits(f.contactNumber) then Some(ContactInvalid)
      else None
    case Password =>
      if f.password == "" then Some(PasswordRequired)
      else if Utf16Length(f.password) < MinPasswordLength then Some(PasswordTooShort)
      else None
    case ConfirmPassword =>
      if f.confirmPassword == "" then Some(ConfirmRequired)
      else if f.password != f.confirmPassword then Some(PasswordsDiffer)
      else None
  }

  lemma EmailRule(f: Form)
    ensures Step1Message(f, Email).None? <==> IsLooseEmail(f.email)
  {
    var s := f.email;
    if IsLooseEmail(s) {
      var at, dot :| 0 <= at < |s| && 0 <= dot < |s| && LooseEmailAt(s, at, dot);
      assert s[at] == '@';
      assert !IsWhitespace(s[at]);
      assert !IsBlank(s);
    }
  }

  lemma ContactRule(f: Form)
    ensures Step1Message(f, ContactNumber).None? <==> IsTenDigits(f.contactNumber)
  {
    if IsTenDigits(f.contactNumber) {
      assert IsAsciiDigit(f.contactNumber[0]);
      assert !IsWhitespace(f.contactNumber[0]);
    }
  }

  lemma PasswordRule(f: Form)
    ensures Step1Message(f, Password).None? <==> Utf16Length(f.password) >= MinPasswordLength
  {
  }

  /** A form breaks no step-1 rule exactly when it is valid: each "required" check
      is subsumed by the format check that follows it. */
  lemma Step1ValidIffNoMessage(f: Form)
    ensures Step1Valid(f) ==> forall field :: Step1Message(f, field).None?
    ensures (forall field :: Step1Message(f, field).None?) ==> Step1Valid(f)
  {
    EmailRule(f);
    ContactRule(f);
    PasswordRule(f);
    if Step1Valid(f) {
      forall field ensures Step1Message(f, field).None? {
        match field {
          case Name =>
          case Email =>
          case ContactNumber =>
          case Password =>
          case ConfirmPassword =>
        }
      }
    }
    if forall field :: Step1Message(f, field).None? {
      assert Step1Message(f, Name).None? && Step1Message(f, Email).None?;
      assert Step1Message(f, ContactNumber).None? && Step1Message(f, Password).None?;
      assert Step1Message(f, ConfirmPassword).None?;
    }
  }

  /** `errors` with `key` set to the message, when there is one. */
  function Note(errors: map<ErrorKey, string>, key: ErrorKey, message: Option<string>): (r: map<ErrorKey, string>)
    ensures Lookup(errors, key).None? ==> Lookup(r, key) == message
    ensures message.None? ==> r == errors
    ensures forall k :: k != key ==> Lookup(r, k) == Lookup(errors, k)
    ensures forall k :: k in r ==> k in errors || k == key
  {
    if message.Some? then errors[key := message.value] else errors
  }

  /** Noting one message per field, in order, leaves each field's own message and
      nothing else. */
  lemma NoteEachField(name: Option<string>, email: Option<string>, contact: Option<string>,
                      password: Option<string>, confirm: Option<string>)
    ensures var errs := Note(Note(Note(Note(Note(map[], FieldError(Name), name), FieldError(Email), email),
                           FieldError(ContactNumber), contact), FieldError(Password), password),
                           FieldError(ConfirmPassword), confirm);
      && (forall k :: k in errs ==> k.FieldError?)
      && Lookup(errs, FieldError(Name)) == name
      && Lookup(errs, FieldError(Email)) == email
      && Lookup(errs, FieldError(ContactNumber)) == contact
      && Lookup(errs, FieldError(Password)) == password
      && Lookup(errs, FieldError(ConfirmPassword)) == confirm
  {
  }

  /** The field errors `validateStep1` collects, one rule after another: exactly the
      messages of the rules the form breaks, and none when it passes them all. */
  method CollectStep1Errors(f: Form) returns (errs: map<ErrorKey, string>)
    ensures forall k :: k in errs ==> k.FieldError?
    ensures forall field :: Lookup(errs, FieldError(field)) == Step1Message(f, field)
    ensures errs == map[] <==> Step1Valid(f)
  {
    var name, email, contact := Step1Message(f, Name), Step1Message(f, Email), Step1Message(f, ContactNumber);
    var password, confirm := Step1Message(f, Password), Step1Message(f, ConfirmPassword);
    errs := map[];
    errs := Note(errs, FieldError(Name), name);
    errs := Note(errs, FieldError(Email), email);
    errs := Note(errs, FieldError(ContactNumber), contact);
    errs := Note(errs, FieldError(Password), password);
    errs := Note(errs, FieldError(ConfirmPassword), confirm);
    NoteEachField(name, email, contact, password, confirm);
    forall field ensures Lookup(errs, FieldError(field)) == Step1Message(f, field) {
      match field {
        case Name =>
        case Email =>
        case ContactNumber =>
        case Password =>
        case ConfirmPassword =>
      }
    }
    NoErrorsIffValid(f, errs);
  }

  /** Field errors that mirror the step-1 rules are empty exactly when the form is
      valid. */
  lemma NoErrorsIffValid(f: Form, errs: map<ErrorKey, string>)
    requires forall k :: k in errs ==> k.FieldError?
    requires forall field :: Lookup(errs, FieldError(field)) == Step1Message(f, field)
    ensures errs == map[] <==> Step1Valid(f)
  {
    Step1ValidIffNoMessage(f);
    if errs == map[] {
      forall field ensures Step1Message(f, field).None? {
        assert Lookup(errs, FieldError(field)).None?;
      }
    } else {
      var k :| k in errs;
      assert Step1Message(f, k.field).Some?;
    }
  }


  /** Whether an image passes the checks of `handleFileChange`, and the message
      when it does not: the size check comes before the type check. */
  function FileRejection(file: UploadFile): (r: Option<string>)
    ensures file.size > MaxFileSize ==> r == Some(FileTooLarge)
    ensures file.size <= MaxFileSize && !StartsWith(file.mimeType, ImageTypePrefix) ==> r == Some(FileNotImage)
    ensures r.None? <==> file.size <= MaxFileSize && StartsWith(file.mimeType, ImageTypePrefix)
  {
    if file.size > MaxFileSize then Some(FileTooLarge)
    else if !StartsWith(file.mimeType, ImageTypePrefix) then Some(FileNotImage)
    else None
  }

  /** The four text fields, in the order the submit appends them. */
  function TextEntries(f: Form): seq<(string, FormValue)> {
    [(Name.Key(), Text(f.name)), (Email.Key(), Text(f.email)), (Password.Key(), Text(f.password)), (ContactNumber.Key(), Text(f.contactNumber))]
  }

  function ImageEntry(files: map<Slot, UploadFile>, slot: Slot): seq<(string, FormValue)> {
    if slot in files then [(slot.Key(), File(files[slot]))] else []
  }

  /** The multipart body of the submit. */
  function SubmitEntries(f: Form, files: map<Slot, UploadFile>): seq<(string, FormValue)> {
    TextEntries(f) + ImageEntries(files)
  }

  function ImageEntries(files: map<Slot, UploadFile>): seq<(string, FormValue)> {
    ImageEntry(files, IdFront) + ImageEntry(files, IdBack) + ImageEntry(files, Selfie)
  }

  lemma SlotKeysDistinct(a: Slot, b: Slot)
    ensures a.Key() == b.Key() ==> a == b
  {
    if a != b {
      assert |a.Key()| != |b.Key()| || a.Key()[0] != b.Key()[0];
    }
  }

  lemma ImageEntryShape(files: map<Slot, UploadFile>, slot: Slot, other: Slot)
    ensures forall e :: e in ImageEntry(files, other) ==> e.1.File?
    ensures slot == other && slot in files ==> (slot.Key(), File(files[slot])) in ImageEntry(files, other)
    ensures slot !in files ==> forall e :: e in ImageEntry(files, other) ==> e.0 != slot.Key()
  {
    SlotKeysDistinct(slot, other);
  }

  /** The body always starts with the four text fields, and carries an image entry
      under a slot's key exactly when that slot holds a file. */
  lemma SubmitEntriesShape(f: Form, files: map<Slot, UploadFile>, slot: Slot)
    ensures |SubmitEntries(f, files)| >= 4 && SubmitEntries(f, files)[..4] == TextEntries(f)
    ensures slot in files ==> (slot.Key(), File(files[slot])) in SubmitEntries(f, files)[4..]
    ensures slot !in files ==> forall e :: e in SubmitEntries(f, files)[4..] ==> e.0 != slot.Key()
    ensures forall e :: e in SubmitEntries(f, files)[4..] ==> e.1.File?
  {
    var d := SubmitEntries(f, files);
    var images := ImageEntries(files);
    assert d == TextEntries(f) + images;
    assert d[4..] == images;
    ImageEntryShape(files, slot, IdFront);
    ImageEntryShape(files, slot, IdBack);
    ImageEntryShape(files, slot, Selfie);
  }

  /** The form with one field set. */
  function WithField(f: Form, field: Field, value: string): Form {
    match field
    case Name => f.(name := value)
    case Email => f.(email := value)
    case ContactNumber => f.(contactNumber := value)
    case Password => f.(password := value)
    case ConfirmPassword => f.(confirmPassword := value)
  }

  /** `errors[key]` is cleared only when it holds a truthy message. */
  function ClearError(errors: map<ErrorKey, string>, key: ErrorKey): map<ErrorKey, string> {
    if Truthy(Lookup(errors, key)) then errors[key := ""] else errors
  }

  class RegisterForm {
    const auth: AuthContext.AuthProvider
    var currentStep: int
    var form: Form
    var files: map<Slot, UploadFile>
    var previews: map<Slot, string>
    var errors: map<ErrorKey, string>
    var loading: bool

    /** The step shown is one of the four. */
    ghost predicate Valid()
      reads this
    {
      1 <= currentStep <= TotalSteps
    }

    constructor (auth: AuthContext.AuthProvider)
      ensures Valid() && this.auth == auth
      ensures currentStep == 1 && form == EmptyForm && files == map[] && previews == map[]
      ensures errors == map[] && !loading
    {
      this.auth := auth;
      currentStep := 1;
      form := EmptyForm;
      files, previews := map[], map[];
      errors := map[];
      loading := false;
    }

    /** `handleInputChange`: sets the field and clears its error if one is shown. */
    method HandleInputChange(field: Field, value: string)
      modifies this
      ensures form == WithField(old(form), field, value)
      ensures errors == ClearError(old(errors), FieldError(field))
      ensures currentStep == old(currentStep) && files == old(files) && previews == old(previews) && loading == old(loading)
    {
      form := WithField(form, field, value);
      var shown := Lookup(errors, FieldError(field));
      if shown.Some? && shown.value != "" {
        errors := errors[FieldError(field) := ""];
      }
    }

    /** `handleFileChange`: an oversized or non-image file only sets the slot's
      error; an accepted one fills its own slot and clears that slot's error. */
    method HandleFileChange(slot: Slot, file: Option<UploadFile>)
      modifies this
      ensures file.None? ==> files == old(files) && errors == old(errors)
      ensures file.Some? && FileRejection(file.value).Some? ==>
        files == old(files) && errors == old(errors)[SlotError(slot) := FileRejection(file.value).value]
      ensures file.Some? && FileRejection(file.value).None? ==>
        files == old(files)[slot := file.value] && errors == ClearError(old(errors), SlotError(slot))
      ensures currentStep == old(currentStep) && form == old(form) && previews == old(previews) && loading == old(loading)
    {
      if file.Some? {
        var f := file.value;
        if f.size > MaxFileSize {
          errors := errors[SlotError(slot) := FileTooLarge];
          return;
        }
        if !StartsWith(f.mimeType, ImageTypePrefix) {
          errors := errors[SlotError(slot) := FileNotImage];
          return;
        }
        files := files[slot := f];
        var shown := Lookup(errors, SlotError(slot));
        if shown.Some? && shown.value != "" {
          errors := errors[SlotError(slot) := ""];
        }
      }
    }

    /** `removeFile`: empties one slot's file and preview. */
    method RemoveFile(slot: Slot)
      modifies this
      ensures files == old(files) - {slot} && previews == old(previews) - {slot}
      ensures currentStep == old(currentStep) && form == old(form) && errors == old(errors) && loading == old(loading)
    {
      files := files - {slot};
      previews := previews - {slot};
    }

    /** `validateStep1`: replaces the errors with the step-1 errors and reports
      whether there were none. */
    method ValidateStep1() returns (ok: bool)
      modifies this
      ensures forall k :: k in errors ==> k.FieldError?
      ensures forall field :: Lookup(errors, FieldError(field)) == Step1Message(form, field)
      ensures ok <==> Step1Valid(form)
      ensures ok <==> errors == map[]
      ensures currentStep == old(currentStep) && form == old(form) && files == old(files) && previews == old(previews) && loading == old(loading)
    {
      var errs := CollectStep1Errors(form);
      errors := errs;
      ok := |errs| == 0;
    }

    /** `handleNext`, offered only below the last step: step 1 advances only when
      its rules pass; later steps advance unconditionally. */
    method HandleNext() returns (advanced: bool)
      requires Valid() && currentStep < TotalSteps
      modifies this
      ensures Valid()
      ensures advanced <==> old(currentStep) != 1 || Step1Valid(form)
      ensures currentStep == if advanced then old(currentStep) + 1 else old(currentStep)
      ensures old(currentStep) != 1 ==> errors == old(errors)
      ensures old(currentStep) == 1 ==>
        && (forall k :: k in errors ==> k.FieldError?)
        && (forall field :: Lookup(errors, FieldError(field)) == Step1Message(form, field))
        && (advanced <==> errors == map[])
      ensures form == old(form) && files == old(files) && previews == old(previews) && loading == old(loading)
    {
      if currentStep == 1 {
        advanced := ValidateStep1();
        if advanced {
          currentStep := currentStep + 1;
        }
      } else {
        advanced := true;
        currentStep := currentStep + 1;
      }
    }

    /** `handlePrevious`, offered only above the first step. */
    method HandlePrevious()
      requires Valid() && currentStep > 1
      modifies this
      ensures Valid() && currentStep == old(currentStep) - 1
      ensures form == old(form) && files == old(files) && previews == old(previews) && errors == old(errors) && loading == old(loading)
    {
      currentStep := currentStep - 1;
    }

    /** The `FormData` the submit builds, one append at a time. */
    method BuildSubmitData() returns (data: seq<(string, FormValue)>)
      ensures data == SubmitEntries(form, files)
    {
      data := [];
      data := data + [(Name.Key(), Text(form.name))];
      data := data + [(Email.Key(), Text(form.email))];
      data := data + [(Password.Key(), Text(form.password))];
      data := data + [(ContactNumber.Key(), Text(form.contactNumber))];
      if IdFront in files {
        data := data + [(IdFront.Key(), File(files[IdFront]))];
      }
      if IdBack in files {
        data := data + [(IdBack.Key(), File(files[IdBack]))];
      }
      if Selfie in files {
        data := data + [(Selfie.Key(), File(files[Selfie]))];
      }
    }

    /** `handleSubmit`: registers through the session store, then signs in through
      the context and goes to the user dashboard; the first failure's message is
      shown under `submit`. */
    method HandleSubmit(registerReply: Outcome<AuthService.AuthData>, loginReply: Outcome<AuthService.AuthData>)
      returns (registration: Request, login: Option<Request>, route: Option<string>)
      modifies this, auth, auth.storage, auth.window
      ensures registration == WithToken(UploadCall(AuthService.RegisterPath, SubmitEntries(form, files)), old(auth.storage.GetItem(Browser.TokenKey)))
      ensures registration.data == Multipart(SubmitEntries(form, files))
      ensures ContentTypeHeader in registration.headers && registration.headers[ContentTypeHeader] == MultipartContentType
      ensures login.Some? <==> registerReply.Fulfilled?
      ensures login.Some? ==>
        login.value == WithToken(PostCall(AuthService.LoginPath, AuthService.Credentials(form.email, form.password)),
          Browser.ItemIn(AuthService.StoreAfter(old(auth.storage.items), registerReply), Browser.TokenKey))
      ensures auth.Current() ==
        if registerReply.Fulfilled? && loginReply.Fulfilled? then AuthContext.Identity(true, loginReply.data.role, Some(AuthContext.Profile(loginReply.data.role)))
        else old(auth.Current())
      ensures auth.window.href ==
        if Invalidates(registerReply) || (registerReply.Fulfilled? && Invalidates(loginReply)) then LoginRoute else old(auth.window.href)
      ensures auth.loading == old(auth.loading)
      ensures registerReply.Rejected? ==>
        && route.None?
        && errors == map[SubmitError := AuthService.FailureMessage(registerReply.error, AuthService.RegisterFallback)]
        && auth.storage.items == AuthService.StoreAfter(old(auth.storage.items), registerReply)
      ensures registerReply.Fulfilled? ==>
        auth.storage.items == AuthService.StoreAfter(AuthService.StoreAfter(old(auth.storage.items), registerReply), loginReply)
      ensures registerReply.Fulfilled? && loginReply.Fulfilled? ==> route == Some(UserDashboard) && errors == map[]
      ensures registerReply.Fulfilled? && loginReply.Rejected? ==>
        route.None? && errors == map[SubmitError := AuthService.FailureMessage(loginReply.error, AuthService.LoginFallback)]
      ensures !loading
      ensures currentStep == old(currentStep) && form == old(form) && files == old(files) && previews == old(previews)
    {
      loading := true;
      errors := map[];
      login, route := None, None;
      var data := BuildSubmitData();
      var registered;
      registration, registered := AuthService.Register(auth.storage, auth.window, data, registerReply);
      assert ContentTypeHeader != AuthorizationHeader;
      if registered.Thrown? {
        errors := map[SubmitError := registered.message];
        loading := false;
        return;
      }
      var request;
      request, route := SignIn(loginReply);
      login := Some(request);
      loading := false;
    }

    /** The part of `handleSubmit` after the account is created: sign in with the
        address and password just registered, then go to the dashboard. */
    method SignIn(loginReply: Outcome<AuthService.AuthData>) returns (login: Request, route: Option<string>)
      modifies this, auth, auth.storage, auth.window
      ensures login == WithToken(PostCall(AuthService.LoginPath, AuthService.Credentials(form.email, form.password)), old(auth.storage.GetItem(Browser.TokenKey)))
      ensures auth.storage.items == AuthService.StoreAfter(old(auth.storage.items), loginReply)
      ensures auth.Current() ==
        if loginReply.Fulfilled? then AuthContext.Identity(true, loginReply.data.role, Some(AuthContext.Profile(loginReply.data.role)))
        else old(auth.Current())
      ensures auth.window.href == if Invalidates(loginReply) then LoginRoute else old(auth.window.href)
      ensures auth.loading == old(auth.loading)
      ensures loginReply.Fulfilled? ==> route == Some(UserDashboard) && errors == old(errors)
      ensures loginReply.Rejected? ==>
        route.None? && errors == map[SubmitError := AuthService.FailureMessage(loginReply.error, AuthService.LoginFallback)]
      ensures loading == old(loading)
      ensures currentStep == old(currentStep) && form == old(form) && files == old(files) && previews == old(previews)
    {
      var signedIn;
      login, signedIn := auth.Login(form.email, form.password, loginReply);
      route := None;
      if signedIn.Thrown? {
        errors := map[SubmitError := signedIn.message];
      } else {
        route := Some(UserDashboard);
      }
    }
  }
}
