/**
 * The sign-up screen: the ordered checks on the form, the profile-image size
 * limit, and the rows written for a new account (its profile and a stats row
 * with 0 points).
 *
 * The e-mail format test is a library pattern; here it is a parameter
 * `isValidEmail`, so every property holds whatever that test accepts.
 */
module SignUp {
  import opened Records
  import opened Store
  import Profile
  import Leaderboard

  const PICK_IMAGE_REQUEST: int := 101
  /** `Activity.RESULT_OK`. */
  const RESULT_OK: int := -1
  /** 5 MiB, in bytes. */
  const MAX_IMAGE_SIZE: int := 5 * 1024 * 1024

  /** The five text fields as typed. */
  datatype SignUpForm = SignUpForm(first: string, last: string, email: string, password: string, confirm: string)

  /** The first check that fails, or the trimmed fields when none does. */
  datatype SignUpCheck =
    | AllFieldsRequired
    | InvalidEmail
    | PasswordsMismatch
    | Proceed(first: string, last: string, email: string, password: string)

  predicate AnyBlank(form: SignUpForm) {
    Trim(form.first) == [] || Trim(form.last) == [] || Trim(form.email) == [] ||
    Trim(form.password) == [] || Trim(form.confirm) == []
  }

  /**
   * The checks of `onSignUpClick`, in order: a blank field, then the e-mail
   * format, then the password confirmation; the first failure decides.
   */
  function ValidateSignUp(form: SignUpForm, isValidEmail: string -> bool): (r: SignUpCheck)
    ensures r == AllFieldsRequired <==> AnyBlank(form)
    ensures r == InvalidEmail <==> !AnyBlank(form) && !isValidEmail(Trim(form.email))
    ensures r == PasswordsMismatch <==>
              !AnyBlank(form) && isValidEmail(Trim(form.email)) && Trim(form.password) != Trim(form.confirm)
    ensures r.Proceed? <==>
              !AnyBlank(form) && isValidEmail(Trim(form.email)) && Trim(form.password) == Trim(form.confirm)
    ensures r.Proceed? ==>
              r == Proceed(Trim(form.first), Trim(form.last), Trim(form.email), Trim(form.password))
  {
    var first := Trim(form.first);
    var last := Trim(form.last);
    var emailText := Trim(form.email);
    var pass := Trim(form.password);
    var confirmPass := Trim(form.confirm);
    if first == [] || last == [] || emailText == [] || pass == [] || confirmPass == [] then AllFieldsRequired
    else if !isValidEmail(emailText) then InvalidEmail
    else if pass != confirmPass then PasswordsMismatch
    else Proceed(first, last, emailText, pass)
  }

  /** With a blank field the e-mail test is never consulted: any two tests give the same answer. */
  lemma BlankFieldSkipsEmailCheck(form: SignUpForm, isValidEmail: string -> bool, otherTest: string -> bool)
    requires AnyBlank(form)
    ensures ValidateSignUp(form, isValidEmail) == ValidateSignUp(form, otherTest) == AllFieldsRequired
  {
  }

  /** With a rejected e-mail the passwords are never compared: any passwords give the same answer. */
  lemma InvalidEmailSkipsPasswordCheck(form: SignUpForm, isValidEmail: string -> bool, password: string, confirm: string)
    requires !AnyBlank(form) && !isValidEmail(Trim(form.email))
    requires Trim(password) != [] && Trim(confirm) != []
    ensures ValidateSignUp(form.(password := password, confirm := confirm), isValidEmail) == InvalidEmail
  {
  }

  /**
   * A form that passes has, in every field, a char above U+0020, and passwords
   * that agree once trimmed.
   */
  lemma ProceedMeansFilledIn(form: SignUpForm, isValidEmail: string -> bool)
    requires ValidateSignUp(form, isValidEmail).Proceed?
    ensures exists k :: 0 <= k < |form.first| && !IsTrimmed(form.first[k])
    ensures exists k :: 0 <= k < |form.last| && !IsTrimmed(form.last[k])
    ensures exists k :: 0 <= k < |form.email| && !IsTrimmed(form.email[k])
    ensures exists k :: 0 <= k < |form.password| && !IsTrimmed(form.password[k])
    ensures Trim(form.password) == Trim(form.confirm)
  {
    TrimEmptyIff(form.first);
    TrimEmptyIff(form.last);
    TrimEmptyIff(form.email);
    TrimEmptyIff(form.password);
  }

  // ---------------------------------------------------------------------------
  // The profile image
  // ---------------------------------------------------------------------------

  /** `getFileSize`: the size column when the provider reports one, else 0. */
  function FileSize(reportedSize: Option<int>): int {
    reportedSize.GetOr(0)
  }

  /** The size rule of `onActivityResult`: an image is kept unless it is over 5 MiB; an unknown size is kept. */
  function AcceptsImage(reportedSize: Option<int>): (r: bool)
    ensures r <==> reportedSize.None? || reportedSize.value <= MAX_IMAGE_SIZE
  {
    !(FileSize(reportedSize) > MAX_IMAGE_SIZE)
  }

  /** The limit itself is allowed; one byte more is not. */
  lemma ImageLimitIsInclusive()
    ensures AcceptsImage(Some(5242880))
    ensures !AcceptsImage(Some(5242881))
    ensures AcceptsImage(None)
  {
  }

  // ---------------------------------------------------------------------------
  // Creating the account
  // ---------------------------------------------------------------------------

  /** The authentication call's result; a created account may still have no current user. */
  datatype AuthResult = EmailCollision | AuthFailure | AuthCreated(uid: Option<string>)

  datatype SignUpOutcome =
    | Rejected(check: SignUpCheck)
    | EmailExists
    | SignupFailed
    | NoCurrentUser
    | SaveFailed
    | SignedUp(uid: string)

  /** `addUserStats`: a row with 0 points for the user, when the store issues a key. */
  function AddUserStats(rows: seq<StatRow>, uid: string, statsKey: Option<string>): seq<StatRow> {
    if statsKey.Some? then rows + [StatRow(Some(uid), Some(0))] else rows
  }

  /**
   * `onSignUpClick` through `saveUserToDatabase`: validate, create the
   * account, keep the uploaded image URL (a failed upload saves the user
   * without one), write the profile, then the stats row.
   */
  function SignUp(
    t: Tables, form: SignUpForm, isValidEmail: string -> bool, selectedImage: Option<string>,
    auth: AuthResult, uploadedUrl: Option<string>, saveSucceeds: bool, statsKey: Option<string>)
    : (SignUpOutcome, Tables)
  {
    var check := ValidateSignUp(form, isValidEmail);
    if !check.Proceed? then (Rejected(check), t)
    else match auth
      case EmailCollision => (EmailExists, t)
      case AuthFailure => (SignupFailed, t)
      case AuthCreated(user) =>
        if user.None? then (NoCurrentUser, t)
        else if !saveSucceeds then (SaveFailed, t)
        else
          var uid := user.value;
          var imageUrl := if selectedImage.Some? then uploadedUrl else None;
          var profile := UserProfile(Some(check.first), Some(check.last), Some(check.email), imageUrl);
          (SignedUp(uid), t.(users := t.users[uid := profile], userstats := AddUserStats(t.userstats, uid, statsKey)))
  }

  /** Nothing is written unless the account is signed up; the new stats row is the user's, with 0 points. */
  lemma SignUpWrites(
    t: Tables, form: SignUpForm, isValidEmail: string -> bool, selectedImage: Option<string>,
    auth: AuthResult, uploadedUrl: Option<string>, saveSucceeds: bool, statsKey: Option<string>)
    ensures var r := SignUp(t, form, isValidEmail, selectedImage, auth, uploadedUrl, saveSucceeds, statsKey);
      && (!r.0.SignedUp? ==> r.1 == t)
      && (r.0.SignedUp? ==>
            && auth == AuthCreated(Some(r.0.uid))
            && ValidateSignUp(form, isValidEmail).Proceed?
            && r.1.users[r.0.uid].firstname == Some(Trim(form.first))
            && r.1.users[r.0.uid].lastname == Some(Trim(form.last))
            && r.1.users[r.0.uid].email == Some(Trim(form.email))
            && r.1.treasures == t.treasures && r.1.discoveries == t.discoveries
            && r.1.savedTreasures == t.savedTreasures
            && (statsKey.Some? ==> r.1.userstats == t.userstats + [StatRow(Some(r.0.uid), Some(0))])
            && (statsKey.None? ==> r.1.userstats == t.userstats))
  {
    var check := ValidateSignUp(form, isValidEmail);
    if check.Proceed? && auth.AuthCreated? && auth.uid.Some? && saveSucceeds {
      var uid := auth.uid.value;
      assert SignUp(t, form, isValidEmail, selectedImage, auth, uploadedUrl, saveSucceeds, statsKey).0 == SignedUp(uid);
    }
  }

  /** A user who had no stats row starts at 0 points in the profile pop-up. */
  lemma NewUserHasZeroPoints(rows: seq<StatRow>, uid: string, statsKey: Option<string>)
    requires forall k :: 0 <= k < |rows| ==> rows[k].userid != Some(uid)
    ensures Profile.CurrentPointsOf(AddUserStats(rows, uid, statsKey), uid) == 0
  {
    var r := AddUserStats(rows, uid, statsKey);
    Profile.CurrentPointsFacts(r, uid);
    if statsKey.Some? {
      assert r[|rows|].userid == Some(uid);
      assert forall k :: 0 <= k < |rows| ==> r[k] == rows[k];
    }
  }

  /**
   * Once the stats row is written, the new user is on the leaderboard with 0
   * points and with the name they signed up with.
   */
  lemma NewUserOnLeaderboard(
    t: Tables, form: SignUpForm, isValidEmail: string -> bool, selectedImage: Option<string>,
    auth: AuthResult, uploadedUrl: Option<string>, saveSucceeds: bool, statsKey: Option<string>)
    requires SignUp(t, form, isValidEmail, selectedImage, auth, uploadedUrl, saveSucceeds, statsKey).0.SignedUp?
    requires statsKey.Some?
    ensures var r := SignUp(t, form, isValidEmail, selectedImage, auth, uploadedUrl, saveSucceeds, statsKey);
      var board := Leaderboard.LeaderboardOf(r.1.userstats, r.1.users);
      var e := Leaderboard.CurrentUserEntry(board, r.0.uid);
      && e.Some?
      && e.value.points == 0
      && e.value.username == Trim(form.first) + " " + Trim(form.last)
  {
    var r := SignUp(t, form, isValidEmail, selectedImage, auth, uploadedUrl, saveSucceeds, statsKey);
    SignUpWrites(t, form, isValidEmail, selectedImage, auth, uploadedUrl, saveSucceeds, statsKey);
    var uid := r.0.uid;
    var rows := r.1.userstats;
    assert r.1.users[uid].firstname == Some(Trim(form.first)) && r.1.users[uid].lastname == Some(Trim(form.last));
    var board := Leaderboard.LeaderboardOf(rows, r.1.users);
    var n := |rows| - 1;
    assert rows[n] == StatRow(Some(uid), Some(0));
    Leaderboard.PointsMapIsLastRead(rows, uid, n);
    Leaderboard.LeaderboardIds(rows, r.1.users);
    assert uid in Leaderboard.IdSet(board);
    var e := Leaderboard.CurrentUserEntry(board, uid);
    var i :| 0 <= i < |board| && board[i] == e.value && e.value.userId == uid;
    Leaderboard.LeaderboardEntryValues(rows, r.1.users, i);
  }

  // ---------------------------------------------------------------------------
  // The screen
  // ---------------------------------------------------------------------------

  class SignUpActivity {
    const db: Database
    var selectedImageUri: Option<string>
    var imageCardVisible: bool

    constructor (db: Database)
      ensures this.db == db && selectedImageUri == None && !imageCardVisible
    {
      this.db := db;
      selectedImageUri := None;
      imageCardVisible := false;
    }

    /**
     * `onActivityResult`: a picked image is kept when it is within the limit,
     * and the selection is cleared when it is over; any other result changes nothing.
     */
    method OnActivityResult(requestCode: int, resultCode: int, data: Option<string>, reportedSize: Option<int>)
      modifies this
      ensures requestCode == PICK_IMAGE_REQUEST && resultCode == RESULT_OK && data.Some? ==>
                if AcceptsImage(reportedSize) then selectedImageUri == data && imageCardVisible
                else selectedImageUri == None && !imageCardVisible
      ensures !(requestCode == PICK_IMAGE_REQUEST && resultCode == RESULT_OK && data.Some?) ==>
                selectedImageUri == old(selectedImageUri) && imageCardVisible == old(imageCardVisible)
    {
      if requestCode == PICK_IMAGE_REQUEST && resultCode == RESULT_OK && data.Some? {
        var imageUri := data.value;
        if FileSize(reportedSize) > MAX_IMAGE_SIZE {
          selectedImageUri := None;
          imageCardVisible := false;
        } else {
          selectedImageUri := Some(imageUri);
          imageCardVisible := true;
        }
      }
    }

    /** `addUserStats`. */
    method AddUserStatsRow(uid: string, statsKey: Option<string>)
      modifies db
      ensures db.State() == old(db.State()).(userstats := AddUserStats(old(db.userstats), uid, statsKey))
    {
      if statsKey.Some? {
        db.userstats := db.userstats + [StatRow(Some(uid), Some(0))];
      }
    }

    /** `onSignUpClick` and the callbacks it chains. */
    method OnSignUpClick(
      form: SignUpForm, isValidEmail: string -> bool,
      auth: AuthResult, uploadedUrl: Option<string>, saveSucceeds: bool, statsKey: Option<string>)
      returns (outcome: SignUpOutcome)
      modifies db
      ensures (outcome, db.State()) ==
                SignUp(old(db.State()), form, isValidEmail, selectedImageUri, auth, uploadedUrl, saveSucceeds, statsKey)
    {
      ghost var before := db.State();
      var check := ValidateSignUp(form, isValidEmail);
      if !check.Proceed? {
        return Rejected(check);
      }
      match auth
      case EmailCollision =>
        outcome := EmailExists;
      case AuthFailure =>
        outcome := SignupFailed;
      case AuthCreated(user) =>
        if user.None? {
          return NoCurrentUser;
        }
        if !saveSucceeds {
          return SaveFailed;
        }
        var uid := user.value;
        var imageUrl: Option<string> := None;
        if selectedImageUri.Some? {
          imageUrl := uploadedUrl;
        }
        db.users := db.users[uid := UserProfile(Some(check.first), Some(check.last), Some(check.email), imageUrl)];
        AddUserStatsRow(uid, statsKey);
        outcome := SignedUp(uid);
        assert (outcome, db.State()) == SignUp(before, form, isValidEmail, selectedImageUri, auth, uploadedUrl, saveSucceeds, statsKey);
    }
  }
}
