/** The session and authorisation logic of main.py: the module-level map
    `user_sessions` from access token to `{email, file_name}` and the guards
    of the OAuth callback, `get_current_user`, `/upload` and `/chat`. What the
    identity provider, the ingestion pipeline and the chatbot answer enters
    each handler as a parameter; what the handler asks of the outside world is
    recorded, in order, in `effects`. */
module App {
  import opened Wrappers
  import opened Py

  /** One entry of `user_sessions` (main.py:79-82). `fileName` is `None`
      until an upload succeeds. */
  datatype Session = Session(email: string, fileName: Option<string>)

  /** The lifecycle of a session cookie. */
  datatype SessionState = Anonymous | Authenticated(hasDocument: bool)

  /** What a handler sends back. */
  datatype Reply =
    | Redirect(location: string, cookieName: string, cookieValue: string)
    | UploadAccepted(filename: Option<string>)
    | ChatAnswer(response: string)
    | HttpError(status: int, detail: string)

  /** The calls a handler makes to the outside world. */
  datatype Effect =
    | TokenRequest(code: string)
    | UserInfoRequest(accessToken: string)
    | TempFileCreated
    | IngestCalled(filename: Option<string>)
    | TempFileRemoved
    | ChatbotCalled(message: string, fileName: string)

  const PdfContentType := "application/pdf"
  const SessionCookie := "access_token"

  const MissingCode := "Missing code"
  const TokenExchangeFailed := "Token exchange failed"
  const EmailLookupFailed := "Failed to fetch user email"
  const NotLoggedIn := "Not logged in or session expired"
  const OnlyPdf := "Only PDF files allowed."
  const NoFileUploaded := "No file uploaded yet."
  const EmptyMessage := "Empty message"
  const InternalServerError := "Internal Server Error"

  /** What `ingest_pdf(temp_path, collection, file.filename)` raises at
      main.py:109: `ingest_pdf` takes two positional parameters (rag.py:67). */
  const IngestArityError := "ingest_pdf() takes 2 positional arguments but 3 were given"

  /** A session has a document when `user.get("file_name")` is truthy. */
  predicate HasDocument(s: Session)
  {
    !Falsy(s.fileName)
  }

  class SessionServer {
    var sessions: map<string, Session>
    var effects: seq<Effect>

    /** Every stored token and every stored email is a non-empty string: the
        callback stores only truthy ones. */
    ghost predicate Valid()
      reads this
    {
      forall t :: t in sessions ==> t != "" && sessions[t].email != ""
    }

    /** No stored session names a document. The program as written keeps
        this: the callback stores `file_name` None and the upload of
        main.py:109 fails before it could set one. */
    ghost predicate NoDocuments()
      reads this
    {
      forall t :: t in sessions ==> sessions[t].fileName == None
    }

    constructor ()
      ensures Valid() && NoDocuments()
      ensures sessions == map[] && effects == []
    {
      sessions := map[];
      effects := [];
    }

    /** Where the holder of `cookie` stands in the session lifecycle. */
    function StateOf(cookie: Option<string>): (st: SessionState)
      reads this
      ensures st == Anonymous <==> cookie.None? || cookie.value !in sessions
      ensures st.Authenticated? ==> st.hasDocument == HasDocument(sessions[cookie.value])
      ensures Valid() && cookie == Some("") ==> st == Anonymous
      ensures NoDocuments() && st.Authenticated? ==> !st.hasDocument
    {
      if cookie.None? || cookie.value !in sessions then Anonymous
      else Authenticated(HasDocument(sessions[cookie.value]))
    }

    /** `get_current_user` (main.py:94-98): 401 when the cookie is absent or
        names no stored session, otherwise that session. */
    function CurrentUser(cookie: Option<string>): (r: Result<Session, Reply>)
      reads this
      ensures r.Failure? <==> StateOf(cookie) == Anonymous
      ensures r.Failure? ==> r.error == HttpError(401, NotLoggedIn)
      ensures r.Success? ==> cookie.Some? && cookie.value in sessions && r.value == sessions[cookie.value]
    {
      if cookie.Some? && cookie.value in sessions then Success(sessions[cookie.value])
      else Failure(HttpError(401, NotLoggedIn))
    }

    /** The OAuth callback (main.py:51-91). `code` is the query parameter,
        `accessToken` the `access_token` of the token-exchange answer and
        `email` the `email` of the userinfo answer. Each failing check answers
        400 and stores nothing; success stores a fresh session with no
        document under the token, replacing any earlier one for that token and
        touching no other, and sets the cookie. */
    method Callback(code: Option<string>, accessToken: Option<string>, email: Option<string>) returns (reply: Reply)
      requires Valid()
      modifies this
      ensures Valid()
      ensures Falsy(code) ==>
        reply == HttpError(400, MissingCode) && sessions == old(sessions) && effects == old(effects)
      ensures !Falsy(code) && Falsy(accessToken) ==>
        reply == HttpError(400, TokenExchangeFailed) && sessions == old(sessions) &&
        effects == old(effects) + [TokenRequest(code.value)]
      ensures !Falsy(code) && !Falsy(accessToken) && Falsy(email) ==>
        reply == HttpError(400, EmailLookupFailed) && sessions == old(sessions) &&
        effects == old(effects) + [TokenRequest(code.value), UserInfoRequest(accessToken.value)]
      ensures !Falsy(code) && !Falsy(accessToken) && !Falsy(email) ==>
        reply == Redirect("/", SessionCookie, accessToken.value) &&
        sessions == old(sessions)[accessToken.value := Session(email.value, None)] &&
        effects == old(effects) + [TokenRequest(code.value), UserInfoRequest(accessToken.value)] &&
        StateOf(accessToken) == Authenticated(false)
      ensures old(NoDocuments()) ==> NoDocuments()
      ensures old(sessions).Keys <= sessions.Keys
      ensures forall t :: t in old(sessions) && (accessToken.None? || t != accessToken.value) ==>
        t in sessions && sessions[t] == old(sessions)[t]
    {
      if Falsy(code) {
        return HttpError(400, MissingCode);
      }
      effects := effects + [TokenRequest(code.value)];
      if Falsy(accessToken) {
        return HttpError(400, TokenExchangeFailed);
      }
      effects := effects + [UserInfoRequest(accessToken.value)];
      if Falsy(email) {
        return HttpError(400, EmailLookupFailed);
      }
      sessions := sessions[accessToken.value := Session(email.value, None)];
      reply := Redirect("/", SessionCookie, accessToken.value);
    }

    /** `/upload` (main.py:101-115) with the call into the ingestion pipeline
        taking the uploaded file's name, as the call site intends. `ingest` is
        what that call does. The session is checked first, then the content
        type; only then is the temporary file made. The document is recorded
        only when ingestion returns; either way the temporary file is removed. */
    method Upload(cookie: Option<string>, contentType: string, filename: Option<string>, ingest: Outcome<()>)
      returns (reply: Reply)
      requires Valid()
      modifies this
      ensures Valid()
      ensures StateOf(cookie) == Anonymous ==>
        reply == HttpError(401, NotLoggedIn) && sessions == old(sessions) && effects == old(effects)
      ensures StateOf(cookie) != Anonymous && contentType != PdfContentType ==>
        reply == HttpError(400, OnlyPdf) && sessions == old(sessions) && effects == old(effects)
      ensures old(StateOf(cookie)) != Anonymous && contentType == PdfContentType ==>
        effects == old(effects) + [TempFileCreated, IngestCalled(filename), TempFileRemoved]
      ensures old(StateOf(cookie)) != Anonymous && contentType == PdfContentType && ingest.Returned? ==>
        reply == UploadAccepted(filename) &&
        sessions == old(sessions)[cookie.value := old(sessions)[cookie.value].(fileName := filename)] &&
        StateOf(cookie) == Authenticated(!Falsy(filename))
      ensures old(StateOf(cookie)) != Anonymous && contentType == PdfContentType && ingest.Raised? ==>
        reply == HttpError(500, ingest.error) && sessions == old(sessions)
      ensures sessions.Keys == old(sessions).Keys
    {
      var user := CurrentUser(cookie);
      if user.Failure? {
        return user.error;
      }
      if contentType != PdfContentType {
        return HttpError(400, OnlyPdf);
      }
      effects := effects + [TempFileCreated];
      effects := effects + [IngestCalled(filename)];
      match ingest {
        case Returned(_) =>
          sessions := sessions[cookie.value := user.value.(fileName := filename)];
          reply := UploadAccepted(filename);
        case Raised(error) =>
          reply := HttpError(500, error);
      }
      effects := effects + [TempFileRemoved];
    }

    /** `/upload` exactly as main.py:109 writes it: the three-argument call of
        the two-parameter `ingest_pdf` raises `TypeError` before any ingestion,
        the handler turns it into a 500 and the session never gets a document. */
    method UploadAsWritten(cookie: Option<string>, contentType: string, filename: Option<string>)
      returns (reply: Reply)
      requires Valid()
      modifies this`effects
      ensures Valid() && (old(NoDocuments()) ==> NoDocuments())
      ensures StateOf(cookie) == Anonymous ==>
        reply == HttpError(401, NotLoggedIn) && effects == old(effects)
      ensures StateOf(cookie) != Anonymous && contentType != PdfContentType ==>
        reply == HttpError(400, OnlyPdf) && effects == old(effects)
      ensures StateOf(cookie) != Anonymous && contentType == PdfContentType ==>
        reply == HttpError(500, IngestArityError) && effects == old(effects) + [TempFileCreated, TempFileRemoved]
      ensures sessions == old(sessions)
    {
      var user := CurrentUser(cookie);
      if user.Failure? {
        return user.error;
      }
      if contentType != PdfContentType {
        return HttpError(400, OnlyPdf);
      }
      effects := effects + [TempFileCreated];
      reply := HttpError(500, IngestArityError);
      effects := effects + [TempFileRemoved];
    }

    /** `/chat` (main.py:121-129) with the chatbot call taking the message and
        the document name, as the call site intends; `answer` is what that call
        does. Session first, then the document, then the message; the chatbot
        is called exactly when all three checks pass, and no handler path here
        changes a session. An exception from the chatbot is not caught and
        becomes a bare 500. */
    method Chat(cookie: Option<string>, message: string, answer: Outcome<string>) returns (reply: Reply)
      requires Valid()
      modifies this`effects
      ensures Valid()
      ensures StateOf(cookie) == Anonymous ==> reply == HttpError(401, NotLoggedIn)
      ensures StateOf(cookie) == Authenticated(false) ==> reply == HttpError(400, NoFileUploaded)
      ensures StateOf(cookie) == Authenticated(true) && Strip(message) == [] ==>
        reply == HttpError(400, EmptyMessage)
      ensures StateOf(cookie) == Authenticated(true) && Strip(message) != [] ==>
        effects == old(effects) + [ChatbotCalled(message, sessions[cookie.value].fileName.value)] &&
        reply == (if answer.Returned? then ChatAnswer(answer.value) else HttpError(500, InternalServerError))
      ensures effects != old(effects) <==> StateOf(cookie) == Authenticated(true) && Strip(message) != []
      ensures effects == old(effects) || |effects| == |old(effects)| + 1
      ensures sessions == old(sessions)
    {
      var user := CurrentUser(cookie);
      if user.Failure? {
        return user.error;
      }
      var fileName := user.value.fileName;
      if Falsy(fileName) {
        return HttpError(400, NoFileUploaded);
      }
      if Strip(message) == [] {
        return HttpError(400, EmptyMessage);
      }
      effects := effects + [ChatbotCalled(message, fileName.value)];
      match answer {
        case Returned(response) => reply := ChatAnswer(response);
        case Raised(_) => reply := HttpError(500, InternalServerError);
      }
    }

    /** `/chat` exactly as main.py:128 writes it: `chatbot.chat(message,
        file_name)` passes two arguments to the one-parameter `Chatbot.chat`
        (rag.py:103), so once the checks pass it raises `TypeError` before the
        chatbot runs, and the client gets a bare 500. */
    method ChatAsWritten(cookie: Option<string>, message: string) returns (reply: Reply)
      requires Valid()
      ensures StateOf(cookie) == Anonymous ==> reply == HttpError(401, NotLoggedIn)
      ensures StateOf(cookie) == Authenticated(false) ==> reply == HttpError(400, NoFileUploaded)
      ensures StateOf(cookie) == Authenticated(true) && Strip(message) == [] ==>
        reply == HttpError(400, EmptyMessage)
      ensures StateOf(cookie) == Authenticated(true) && Strip(message) != [] ==>
        reply == HttpError(500, InternalServerError)
      ensures NoDocuments() && StateOf(cookie) != Anonymous ==> reply == HttpError(400, NoFileUploaded)
    {
      var user := CurrentUser(cookie);
      if user.Failure? {
        return user.error;
      }
      if Falsy(user.value.fileName) {
        return HttpError(400, NoFileUploaded);
      }
      if Strip(message) == [] {
        return HttpError(400, EmptyMessage);
      }
      reply := HttpError(500, InternalServerError);
    }
  }

  /** With the upload handler as written, a user who logs in and uploads a
      PDF that would ingest fine still cannot chat: the session never gets a
      document. */
  method AsWrittenUploadNeverEnablesChat() returns (reply: Reply)
    ensures reply == HttpError(400, NoFileUploaded)
  {
    var server := new SessionServer();
    var login := server.Callback(Some("code"), Some("token"), Some("user@example.com"));
    assert server.StateOf(Some("token")) == Authenticated(false);
    var upload := server.UploadAsWritten(Some("token"), PdfContentType, Some("paper.pdf"));
    assert upload == HttpError(500, IngestArityError);
    assert server.StateOf(Some("token")) == Authenticated(false);
    reply := server.Chat(Some("token"), "What is this paper about?", Returned("It is about chunking."));
  }

  /** Login followed by a successful upload of `paper.pdf`, with the
      intended call site of main.py:109. */
  method LoginAndUpload() returns (server: SessionServer)
    ensures fresh(server) && server.Valid()
    ensures server.sessions == map["token" := Session("user@example.com", Some("paper.pdf"))]
    ensures server.effects == [TokenRequest("code"), UserInfoRequest("token"),
                               TempFileCreated, IngestCalled(Some("paper.pdf")), TempFileRemoved]
  {
    server := new SessionServer();
    var login := server.Callback(Some("code"), Some("token"), Some("user@example.com"));
    assert server.effects == [TokenRequest("code"), UserInfoRequest("token")];
    assert server.sessions == map["token" := Session("user@example.com", None)];
    assert server.StateOf(Some("token")) == Authenticated(false);
    var upload := server.Upload(Some("token"), PdfContentType, Some("paper.pdf"), Returned(()));
  }

  /** With the intended call sites, log in, upload and chat with any
      non-blank message reaches the chatbot with the uploaded name and
      returns its answer. */
  method UploadThenChatReachesChatbot(message: string) returns (reply: Reply, effects: seq<Effect>)
    requires Strip(message) != []
    ensures reply == ChatAnswer("It is about chunking.")
    ensures effects == [TokenRequest("code"), UserInfoRequest("token"),
                        TempFileCreated, IngestCalled(Some("paper.pdf")), TempFileRemoved,
                        ChatbotCalled(message, "paper.pdf")]
  {
    var server := LoginAndUpload();
    assert server.StateOf(Some("token")) == Authenticated(true);
    reply := server.Chat(Some("token"), message, Returned("It is about chunking."));
    effects := server.effects;
  }



  /** Logging in again with the same token replaces the session, so the
      remembered document is forgotten and chat is refused again. */
  method ReloginForgetsDocument() returns (reply: Reply)
    ensures reply == HttpError(400, NoFileUploaded)
  {
    var server := new SessionServer();
    var login := server.Callback(Some("code"), Some("token"), Some("user@example.com"));
    var upload := server.Upload(Some("token"), PdfContentType, Some("paper.pdf"), Returned(()));
    assert server.StateOf(Some("token")) == Authenticated(true);
    login := server.Callback(Some("code2"), Some("token"), Some("user@example.com"));
    assert server.StateOf(Some("token")) == Authenticated(false);
    reply := server.Chat(Some("token"), "Still there?", Returned("Yes."));
  }

  /** A whitespace-only message is refused before the chatbot is called,
      whatever the chatbot would have answered. */
  method BlankMessageNeverReachesChatbot(message: string) returns (reply: Reply, called: bool)
    requires AllSpace(message)
    ensures reply == HttpError(400, EmptyMessage) && !called
  {
    StripEmptyIffAllSpace(message);
    var server := new SessionServer();
    var login := server.Callback(Some("code"), Some("token"), Some("user@example.com"));
    var upload := server.Upload(Some("token"), PdfContentType, Some("paper.pdf"), Returned(()));
    assert server.StateOf(Some("token")) == Authenticated(true);
    var before := server.effects;
    reply := server.Chat(Some("token"), message, Returned("unused"));
    called := server.effects != before;
  }
}
