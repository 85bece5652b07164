/** The mutable state of the Flask application and the routes that change it:
    OTP login (`login`, `verify_otp`), the append-only registries (`submit_post`,
    `list_product`) and `change_language`. One client session is modelled; the
    random OTP and the `datetime.now()` timestamps are parameters. */
module Backend {
  import opened Text

  /** Keys of the Flask session dictionary used by these routes. */
  const PendingMobileKey: string := "pending_mobile"
  const UserIdKey: string := "user_id"
  const LanguageKey: string := "language"

  const DefaultLanguage: string := "hindi"
  const DefaultRegion: string := "default"

  /** A record of `users_db`. */
  datatype User = User(mobile: string, joined: string, language: string, region: string)

  /** A record of `farmer_posts`; fields missing from the JSON body are `None`. */
  datatype Post = Post(
    id: nat, user: string,
    title: Option<string>, content: Option<string>, kind: Option<string>, crop: Option<string>,
    timestamp: string, likes: nat)

  /** A record of `products_list`. */
  datatype Product = Product(
    id: nat, user: string,
    name: Option<string>, kind: Option<string>, quantity: Option<string>,
    location: Option<string>, contact: Option<string>,
    timestamp: string)

  /** The login form's test: ten characters, all (ASCII) digits. */
  predicate ValidMobile(m: string) {
    |m| == 10 && AllDigits(m)
  }

  /** What the OTP generator yields: six digits. */
  predicate IsOtp(s: string) {
    |s| == 6 && AllDigits(s)
  }

  /** Record `k` of a registry has id `k + 1`. */
  ghost predicate PostsNumbered(posts: seq<Post>) {
    forall k :: 0 <= k < |posts| ==> posts[k].id == k + 1
  }

  ghost predicate ProductsNumbered(products: seq<Product>) {
    forall k :: 0 <= k < |products| ==> products[k].id == k + 1
  }

  class App {
    var otpStore: map<string, string>
    var usersDb: map<string, User>
    var farmerPosts: seq<Post>
    var productsList: seq<Product>
    var session: map<string, string>

    /** What the routes keep true together: only well-formed mobiles are stored,
        every user record is filed under its own mobile, a logged-in session names
        an existing user and carries that user's language, and registry ids are
        1, 2, 3, ... in order. */
    ghost predicate Valid()
      reads this
    {
      && (forall m :: m in otpStore ==> ValidMobile(m) && IsOtp(otpStore[m]))
      && (forall m :: m in usersDb ==> ValidMobile(m) && usersDb[m].mobile == m)
      && (PendingMobileKey in session ==> ValidMobile(session[PendingMobileKey]))
      && (UserIdKey in session ==> session[UserIdKey] in usersDb)
      && (UserIdKey in session && LanguageKey in session ==>
            session[LanguageKey] == usersDb[session[UserIdKey]].language)
      && PostsNumbered(farmerPosts)
      && ProductsNumbered(productsList)
      && (forall k :: 0 <= k < |farmerPosts| ==> farmerPosts[k].user in usersDb)
      && (forall k :: 0 <= k < |productsList| ==> productsList[k].user in usersDb)
    }

    /** The empty stores of a freshly started server with a fresh session. */
    constructor ()
      ensures Valid()
      ensures otpStore == map[] && usersDb == map[] && session == map[]
      ensures farmerPosts == [] && productsList == []
    {
      otpStore := map[];
      usersDb := map[];
      farmerPosts := [];
      productsList := [];
      session := map[];
    }

    /** POST /login with form field `mobile` (absent: `None`) and the generated `otp`.
        Returns whether the request was accepted (redirect to OTP entry). */
    method Login(mobile: Option<string>, otp: string) returns (accepted: bool)
      requires Valid() && IsOtp(otp)
      modifies this
      ensures Valid()
      ensures accepted <==> mobile.Some? && ValidMobile(mobile.value)
      ensures accepted ==> otpStore == old(otpStore)[mobile.value := otp]
      ensures accepted ==> session == old(session)[PendingMobileKey := mobile.value]
      ensures !accepted ==> otpStore == old(otpStore) && session == old(session)
      ensures usersDb == old(usersDb)
      ensures farmerPosts == old(farmerPosts) && productsList == old(productsList)
    {
      accepted := mobile.Some? && |mobile.value| == 10 && AllDigits(mobile.value);
      if accepted {
        otpStore := otpStore[mobile.value := otp];
        session := session[PendingMobileKey := mobile.value];
      }
    }

    /** POST /verify-otp with form field `otp` (absent: `None`); `now` is the
        timestamp a new user record gets. Returns whether the login completed. */
    method VerifyOtp(entered: Option<string>, now: string) returns (verified: bool)
      requires Valid()
      modifies this
      ensures Valid()
      ensures verified <==>
        PendingMobileKey in old(session) && old(session)[PendingMobileKey] in old(otpStore) &&
        entered == Some(old(otpStore)[old(session)[PendingMobileKey]])
      ensures verified ==>
        var m := old(session)[PendingMobileKey];
        && otpStore == old(otpStore) - {m}
        && m !in otpStore
        && (m in old(usersDb) ==> usersDb == old(usersDb))
        && (m !in old(usersDb) ==> usersDb == old(usersDb)[m := User(m, now, DefaultLanguage, DefaultRegion)])
        && session == old(session)[UserIdKey := m][LanguageKey := usersDb[m].language] - {PendingMobileKey}
      ensures !verified ==>
        otpStore == old(otpStore) && usersDb == old(usersDb) && session == old(session)
      ensures farmerPosts == old(farmerPosts) && productsList == old(productsList)
    {
      verified := false;
      if PendingMobileKey in session {
        var m := session[PendingMobileKey];
        if m in otpStore && entered == Some(otpStore[m]) {
          if m !in usersDb {
            usersDb := usersDb[m := User(m, now, DefaultLanguage, DefaultRegion)];
          }
          session := session[UserIdKey := m];
          session := session[LanguageKey := usersDb[m].language];
          otpStore := otpStore - {m};
          session := session - {PendingMobileKey};
          verified := true;
        }
      }
    }

    /** POST /submit-post. Without a logged-in user the route redirects to the
        login page (`None`); otherwise it appends one post numbered after the last. */
    method SubmitPost(title: Option<string>, content: Option<string>, kind: Option<string>,
                      crop: Option<string>, now: string) returns (postId: Option<nat>)
      requires Valid()
      modifies this
      ensures Valid()
      ensures postId.Some? <==> UserIdKey in old(session)
      ensures postId.Some? ==>
        && postId.value == |old(farmerPosts)| + 1
        && farmerPosts == old(farmerPosts) +
             [Post(postId.value, old(session)[UserIdKey], title, content, kind, crop, now, 0)]
      ensures postId.None? ==> farmerPosts == old(farmerPosts)
      ensures otpStore == old(otpStore) && usersDb == old(usersDb) && session == old(session)
      ensures productsList == old(productsList)
    {
      if UserIdKey !in session {
        return None;
      }
      var post := Post(|farmerPosts| + 1, session[UserIdKey], title, content, kind, crop, now, 0);
      farmerPosts := farmerPosts + [post];
      postId := Some(post.id);
    }

    /** POST /list-product, the same discipline as `SubmitPost` over `products_list`. */
    method ListProduct(name: Option<string>, kind: Option<string>, quantity: Option<string>,
                       location: Option<string>, contact: Option<string>, now: string)
      returns (productId: Option<nat>)
      requires Valid()
      modifies this
      ensures Valid()
      ensures productId.Some? <==> UserIdKey in old(session)
      ensures productId.Some? ==>
        && productId.value == |old(productsList)| + 1
        && productsList == old(productsList) +
             [Product(productId.value, old(session)[UserIdKey], name, kind, quantity, location, contact, now)]
      ensures productId.None? ==> productsList == old(productsList)
      ensures otpStore == old(otpStore) && usersDb == old(usersDb) && session == old(session)
      ensures farmerPosts == old(farmerPosts)
    {
      if UserIdKey !in session {
        return None;
      }
      var product := Product(|productsList| + 1, session[UserIdKey], name, kind, quantity, location, contact, now);
      productsList := productsList + [product];
      productId := Some(product.id);
    }

    /** POST /change-language with JSON field `language` (absent: `None`, read as
        'hindi'). The session's language changes, and so does the logged-in user's. */
    method ChangeLanguage(language: Option<string>) returns (chosen: string)
      requires Valid()
      modifies this
      ensures Valid()
      ensures language.Some? ==> chosen == language.value
      ensures language.None? ==> chosen == DefaultLanguage
      ensures session == old(session)[LanguageKey := chosen]
      ensures UserIdKey in old(session) ==>
        var u := old(session)[UserIdKey];
        usersDb == old(usersDb)[u := old(usersDb)[u].(language := chosen)]
      ensures UserIdKey !in old(session) ==> usersDb == old(usersDb)
      ensures otpStore == old(otpStore)
      ensures farmerPosts == old(farmerPosts) && productsList == old(productsList)
    {
      chosen := if language.Some? then language.value else DefaultLanguage;
      session := session[LanguageKey := chosen];
      if UserIdKey in session {
        var u := session[UserIdKey];
        usersDb := usersDb[u := usersDb[u].(language := chosen)];
      }
    }
  }

  /** An OTP opens one login only: after a successful verification, presenting the
      same code again fails, because the code and the pending mobile are gone. */
  method OtpIsSingleUse(mobile: string, otp: string, t1: string, t2: string)
    returns (first: bool, second: bool)
    requires ValidMobile(mobile) && IsOtp(otp)
    ensures first && !second
  {
    var app := new App();
    var accepted := app.Login(Some(mobile), otp);
    first := app.VerifyOtp(Some(otp), t1);
    second := app.VerifyOtp(Some(otp), t2);
  }

  /** A returning user keeps the record created at the first login: a second
      login does not reset the language chosen in between, and the session takes
      the record's language. */
  method ReturningUserKeepsRecord(mobile: string, otp1: string, otp2: string, t1: string, t2: string)
    returns (sessionLanguage: string, joined: string)
    requires ValidMobile(mobile) && IsOtp(otp1) && IsOtp(otp2)
    ensures sessionLanguage == "english" && joined == t1
  {
    var app := new App();
    var ok := app.Login(Some(mobile), otp1);
    ok := app.VerifyOtp(Some(otp1), t1);
    var chosen := app.ChangeLanguage(Some("english"));
    ok := app.Login(Some(mobile), otp2);
    ok := app.VerifyOtp(Some(otp2), t2);
    assert ok;
    sessionLanguage := app.session[LanguageKey];
    joined := app.usersDb[mobile].joined;
  }

  /** A wrong code, or none, changes nothing; the right code still works afterwards. */
  method WrongOtpKeepsPendingLogin(mobile: string, otp: string, wrong: string, t: string)
    returns (withWrong: bool, withMissing: bool, withRight: bool)
    requires ValidMobile(mobile) && IsOtp(otp) && wrong != otp
    ensures !withWrong && !withMissing && withRight
  {
    var app := new App();
    var accepted := app.Login(Some(mobile), otp);
    withWrong := app.VerifyOtp(Some(wrong), t);
    withMissing := app.VerifyOtp(None, t);
    withRight := app.VerifyOtp(Some(otp), t);
  }
}
