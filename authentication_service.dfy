/** `AuthenticationApplicationService`: each method runs one use-case flow,
    translates the flow's result or typed error into what the caller gets,
    and publishes a domain event when the flow succeeded. The flows
    themselves are inputs here: each is given as its outcome. */
module AuthenticationService {
  import opened Results
  import opened AuthenticationEvents

  type UserId = string

  /** The typed errors the flows raise; `OtherError` stands for any other
      thrown value. Each carries the `message` of the error object. */
  datatype AuthError =
    | EmailAlreadyInUse(message: string)
    | InvalidCredentials(message: string)
    | AccountNotVerified(message: string)
    | AccountNotFound(message: string)
    | OtherError(name: string, message: string)

  /** What a flow's `execute` did: resolved with a value, or threw. */
  datatype FlowOutcome<+T> = Completed(value: T) | Raised(error: AuthError)

  /** What a service method does for its caller: resolve with a value, or
      throw the error on. */
  datatype Reply<+T> = Returned(value: T) | Rethrown(error: AuthError)

  /** `{ userId, id }`: the user id and a fresh session id. */
  datatype Session = Session(userId: UserId, id: string)

  /** `LoginResult`: `[{ message }, null]` or `[null, { userId, id }]`. */
  datatype LoginResult = LoginFailed(message: string) | LoggedIn(session: Session)

  /** The fields of the account `RegisterFlow` resolves with that the service reads. */
  datatype RegisteredAccount = RegisteredAccount(email: string, verificationToken: string)

  /** The fields of the account `ForgotPassword` resolves with that the service reads. */
  datatype ForgottenAccount = ForgottenAccount(email: string, passwordResetToken: string)

  /** A service call's effect: the reply, and the events handed to the bus. */
  datatype Step<+T> = Step(reply: Reply<T>, published: seq<Event>)

  const InvalidCredentialsMessage: string := "Could not login. Make sure your credentials are valid."

  datatype Operation = Login | Register | VerifyAccount | ForgotPassword | ResetPassword

  /** The catch policy: which error kinds each method handles itself. Every
      other kind is thrown on to the caller unchanged. */
  predicate Catches(op: Operation, e: AuthError)
  {
    match op
    case Login => e.AccountNotVerified? || e.InvalidCredentials?
    case Register => e.EmailAlreadyInUse?
    case ForgotPassword => e.AccountNotFound? || e.AccountNotVerified?
    case VerifyAccount => false
    case ResetPassword => false
  }

  /** The shape every step has: an error the method does not catch is thrown
      on unchanged, a caught one or a success resolves normally. */
  predicate FollowsCatchPolicy<F, T>(op: Operation, flow: FlowOutcome<F>, step: Step<T>)
  {
    && (step.reply.Rethrown? <==> flow.Raised? && !Catches(op, flow.error))
    && (step.reply.Rethrown? ==> step.reply.error == flow.error)
  }

  /** The publication policy: at most one event, and one exactly when the
      flow completed (for the methods that publish at all). */
  predicate PublishesOnSuccessOnly<F, T>(flow: FlowOutcome<F>, step: Step<T>)
  {
    && |step.published| <= 1
    && (step.published != [] <==> flow.Completed?)
    && (step.published != [] ==> step.reply.Returned?)
  }

  /** `login`. */
  function LoginStep(flow: FlowOutcome<UserId>, sessionId: string): (s: Step<LoginResult>)
    ensures FollowsCatchPolicy(Login, flow, s)
    ensures s.published == []
    ensures flow.Completed? ==> s.reply == Returned(LoggedIn(Session(flow.value, sessionId)))
    ensures flow.Raised? && flow.error.AccountNotVerified? ==> s.reply == Returned(LoginFailed(flow.error.message))
    ensures flow.Raised? && flow.error.InvalidCredentials? ==> s.reply == Returned(LoginFailed(InvalidCredentialsMessage))
  {
    match flow
    case Completed(userId) => Step(Returned(LoggedIn(Session(userId, sessionId))), [])
    case Raised(err) =>
      if err.AccountNotVerified? then Step(Returned(LoginFailed(err.message)), [])
      else if err.InvalidCredentials? then Step(Returned(LoginFailed(InvalidCredentialsMessage)), [])
      else Step(Rethrown(err), [])
  }

  /** `register`: resolves with nothing on success and with `{ message }` on
      `EmailAlreadyInUse`. */
  function RegisterStep(flow: FlowOutcome<RegisteredAccount>): (s: Step<Option<string>>)
    ensures FollowsCatchPolicy(Register, flow, s)
    ensures PublishesOnSuccessOnly(flow, s)
    ensures flow.Completed? ==>
      s == Step(Returned(None), [UserRegistered(flow.value.email, flow.value.verificationToken)])
    ensures flow.Raised? && flow.error.EmailAlreadyInUse? ==> s.reply == Returned(Some(flow.error.message))
  {
    match flow
    case Completed(account) => Step(Returned(None), [UserRegistered(account.email, account.verificationToken)])
    case Raised(err) =>
      if err.EmailAlreadyInUse? then Step(Returned(Some(err.message)), [])
      else Step(Rethrown(err), [])
  }

  /** `verifyAccount`: no error is caught, nothing is published. */
  function VerifyAccountStep(flow: FlowOutcome<UserId>, sessionId: string): (s: Step<Session>)
    ensures FollowsCatchPolicy(VerifyAccount, flow, s)
    ensures s.published == []
    ensures flow.Completed? ==> s.reply == Returned(Session(flow.value, sessionId))
  {
    match flow
    case Completed(userId) => Step(Returned(Session(userId, sessionId)), [])
    case Raised(err) => Step(Rethrown(err), [])
  }

  /** `forgotPassword`: an unknown or unverified account resolves normally and
      publishes nothing, so the caller cannot tell it from a success. */
  function ForgotPasswordStep(flow: FlowOutcome<ForgottenAccount>): (s: Step<()>)
    ensures FollowsCatchPolicy(ForgotPassword, flow, s)
    ensures PublishesOnSuccessOnly(flow, s)
    ensures flow.Completed? ==>
      s == Step(Returned(()), [PasswordForgotten(flow.value.email, flow.value.passwordResetToken)])
  {
    match flow
    case Completed(account) => Step(Returned(()), [PasswordForgotten(account.email, account.passwordResetToken)])
    case Raised(err) =>
      if err.AccountNotFound? || err.AccountNotVerified? then Step(Returned(()), [])
      else Step(Rethrown(err), [])
  }

  /** `resetPassword`: `PasswordChanged` for the given email once the flow has
      completed; any error is thrown on and nothing is published. */
  function ResetPasswordStep(email: string, flow: FlowOutcome<()>): (s: Step<()>)
    ensures FollowsCatchPolicy(ResetPassword, flow, s)
    ensures PublishesOnSuccessOnly(flow, s)
    ensures flow.Completed? ==> s == Step(Returned(()), [PasswordChanged(email)])
  {
    match flow
    case Completed(_) => Step(Returned(()), [PasswordChanged(email)])
    case Raised(err) => Step(Rethrown(err), [])
  }

  /** An unknown or unverified account is indistinguishable from a success
      to the caller of `forgotPassword`, and no event reaches the bus. */
  lemma ForgotPasswordHidesAccountState(flow: FlowOutcome<ForgottenAccount>)
    requires flow.Raised? && (flow.error.AccountNotFound? || flow.error.AccountNotVerified?)
    ensures ForgotPasswordStep(flow) == Step(Returned(()), [])
  {
  }

  /** A successful registration publishes one event, tagged "user.registered",
      carrying the new account's email and verification token. */
  lemma RegisterPublishesUserRegistered(account: RegisteredAccount)
    ensures var published := RegisterStep(Completed(account)).published;
      && |published| == 1
      && published[0].Type() == Some("user.registered")
      && published[0] == UserRegistered(account.email, account.verificationToken)
  {
  }

  /** The service object; `events` is everything handed to the event bus, in order. */
  class AuthenticationApplicationService {
    var events: seq<Event>

    constructor ()
      ensures events == []
    {
      events := [];
    }

    method Login(flow: FlowOutcome<UserId>, sessionId: string) returns (r: Reply<LoginResult>)
      ensures r == LoginStep(flow, sessionId).reply
    {
      if flow.Completed? {
        return Returned(LoggedIn(Session(flow.value, sessionId)));
      }
      var err := flow.error;
      var message: string;
      if err.AccountNotVerified? {
        message := err.message;
      } else if err.InvalidCredentials? {
        message := InvalidCredentialsMessage;
      } else {
        return Rethrown(err);
      }
      r := Returned(LoginFailed(message));
    }

    method Register(flow: FlowOutcome<RegisteredAccount>) returns (r: Reply<Option<string>>)
      modifies this
      ensures r == RegisterStep(flow).reply
      ensures events == old(events) + RegisterStep(flow).published
    {
      if flow.Completed? {
        events := events + [UserRegistered(flow.value.email, flow.value.verificationToken)];
        return Returned(None);
      }
      var err := flow.error;
      if !err.EmailAlreadyInUse? {
        return Rethrown(err);
      }
      r := Returned(Some(err.message));
    }

    method VerifyAccount(flow: FlowOutcome<UserId>, sessionId: string) returns (r: Reply<Session>)
      ensures r == VerifyAccountStep(flow, sessionId).reply
    {
      if flow.Raised? {
        return Rethrown(flow.error);
      }
      r := Returned(Session(flow.value, sessionId));
    }

    method ForgotPassword(flow: FlowOutcome<ForgottenAccount>) returns (r: Reply<()>)
      modifies this
      ensures r == ForgotPasswordStep(flow).reply
      ensures events == old(events) + ForgotPasswordStep(flow).published
    {
      if flow.Completed? {
        events := events + [PasswordForgotten(flow.value.email, flow.value.passwordResetToken)];
        return Returned(());
      }
      var err := flow.error;
      if err.AccountNotFound? || err.AccountNotVerified? {
        return Returned(());
      }
      r := Rethrown(err);
    }

    method ResetPassword(email: string, flow: FlowOutcome<()>) returns (r: Reply<()>)
      modifies this
      ensures r == ResetPasswordStep(email, flow).reply
      ensures events == old(events) + ResetPasswordStep(email, flow).published
    {
      if flow.Raised? {
        return Rethrown(flow.error);
      }
      events := events + [PasswordChanged(email)];
      r := Returned(());
    }
  }
}
