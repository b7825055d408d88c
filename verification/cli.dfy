/**
 * The `send` and `test` handlers of src/feishu/cli.py: a sequence of guards
 * (a non-blank message, a configuration that loads and is enabled), then one
 * notifier built from the configured webhooks and one `send_text`, with
 * every failure ending in exit code 1.  Also the command line's own copy of
 * the webhook mask.
 *
 * The configuration file system, the environment, the transport and the
 * clock are parameters.  Logging, `print` output and command dispatch are
 * not modelled.
 */
module Cli {
  import opened Wrappers
  import opened PyStr
  import C = FeishuConfig
  import N = Notification

  /** The timeout the handlers build their notifier with (the default of
      `FeishuNotifier.__init__`). */
  const DefaultTimeout := 10

  /** The observable steps of a handler, in the order it takes them. */
  datatype Step =
    | LoadedConfig(path: Option<string>)
    | BuiltNotifier(webhooks: seq<string>, timeout: int)
    | SentText(text: string)

  /** Why a handler called `sys.exit(1)`. */
  datatype Reason =
    | EmptyMessage
    | ConfigFailed(loadError: C.LoadError)
    | NotEnabled
    | SendFailed(sendError: N.SendError)

  /** How a handler ends: it returns `True` or exits with a code. */
  datatype Exit = ReturnedTrue | Exited(code: int, reason: Reason)

  /** What loading, checking and sending `text` must give, where `loaded`
      is what `Config.load` gives: a configuration that does not load or is
      disabled ends in exit 1 before any notifier exists; otherwise the
      configured webhooks go to one notifier with the default timeout, the
      text is sent once, and the handler returns `True` exactly when the
      delivery verdict is `True`. */
  predicate Delivers(loaded: Result<C.Settings, C.LoadError>, text: string, configPath: Option<string>,
                     post: (nat, N.Request) -> N.Reply, r: Exit, trace: seq<Step>, sent: seq<N.Request>)
  {
    if loaded.Failure? then
      r == Exited(1, ConfigFailed(loaded.error)) && trace == [LoadedConfig(configPath)] && sent == []
    else if !loaded.value.enabled then
      r == Exited(1, NotEnabled) && trace == [LoadedConfig(configPath)] && sent == []
    else
      var webhooks := loaded.value.webhooks;
      && trace == [LoadedConfig(configPath), BuiltNotifier(webhooks, DefaultTimeout), SentText(text)]
      && sent == N.Requests(webhooks, N.TextPayload(N.Format(text)), N.JsonHeaders, DefaultTimeout)
      && r == ExitOf(N.Verdict(N.Outcomes(sent, post)))
  }

  /** A delivering handler returns `True` exactly when the configuration
      loads, is enabled, and every configured webhook accepts the message;
      it never exits with a code other than 1. */
  lemma DeliversMeaning(text: string, configPath: Option<string>, env: C.Environment, fs: C.FileSystem,
                        post: (nat, N.Request) -> N.Reply, r: Exit, trace: seq<Step>, sent: seq<N.Request>)
    requires Delivers(C.LoadSettings(configPath, env, fs), text, configPath, post, r, trace, sent)
    ensures r.Exited? ==> r.code == 1
    ensures r == ReturnedTrue <==>
      && C.LoadSettings(configPath, env, fs).Success?
      && C.LoadSettings(configPath, env, fs).value.enabled
      && forall i :: 0 <= i < |sent| ==> N.ClassifyReply(post(i, sent[i])).Pass?
  {
    var loaded := C.LoadSettings(configPath, env, fs);
    if loaded.Success? && loaded.value.enabled {
      C.LoadedSettingsValid(configPath, env, fs);
    }
    DeliversExit(loaded, text, configPath, post, r, trace, sent);
  }

  /** The same for any loading result that, when enabled, has a webhook. */
  lemma DeliversExit(loaded: Result<C.Settings, C.LoadError>, text: string, configPath: Option<string>,
                     post: (nat, N.Request) -> N.Reply, r: Exit, trace: seq<Step>, sent: seq<N.Request>)
    requires Delivers(loaded, text, configPath, post, r, trace, sent)
    requires loaded.Success? && loaded.value.enabled ==> |loaded.value.webhooks| > 0
    ensures r.Exited? ==> r.code == 1
    ensures r == ReturnedTrue <==>
      loaded.Success? && loaded.value.enabled && forall i :: 0 <= i < |sent| ==> N.ClassifyReply(post(i, sent[i])).Pass?
  {
    if loaded.Success? && loaded.value.enabled {
      assert |sent| == |loaded.value.webhooks|;
      N.AllAccepted(sent, post);
    }
  }

  /** The common tail of `send` and `test`: load, check `is_enabled()`,
      build the notifier from `get_webhooks()`, `send_text`. */
  method Deliver(text: string, configPath: Option<string>, env: C.Environment, fs: C.FileSystem,
                 post: (nat, N.Request) -> N.Reply)
    returns (r: Exit, trace: seq<Step>, sent: seq<N.Request>)
    requires !IsBlank(text)
    ensures Delivers(C.LoadSettings(configPath, env, fs), text, configPath, post, r, trace, sent)
  {
    trace := [LoadedConfig(configPath)];
    sent := [];
    var loaded := C.Load(configPath, env, fs);
    if loaded.Failure? {
      return Exited(1, ConfigFailed(loaded.error)), trace, sent;
    }
    var config := loaded.value;
    if !config.IsEnabled() {
      return Exited(1, NotEnabled), trace, sent;
    }
    var webhooks := config.GetWebhooks();
    C.LoadedSettingsValid(configPath, env, fs);
    r, sent := Notify(webhooks, text, post);
    trace := trace + [BuiltNotifier(webhooks, DefaultTimeout), SentText(text)];
  }

  /** The exit that follows a delivery verdict. */
  function ExitOf(verdict: Result<bool, N.NotificationError>): Exit {
    if verdict.Success? then ReturnedTrue else Exited(1, SendFailed(N.Undelivered(verdict.error)))
  }

  /** `FeishuNotifier(webhooks)` then `send_text(text)`, and the exit that
      follows. */
  method Notify(webhooks: seq<string>, text: string, post: (nat, N.Request) -> N.Reply)
    returns (r: Exit, sent: seq<N.Request>)
    requires |webhooks| > 0 && !IsBlank(text)
    ensures sent == N.Requests(webhooks, N.TextPayload(N.Format(text)), N.JsonHeaders, DefaultTimeout)
    ensures r == ExitOf(N.Verdict(N.Outcomes(sent, post)))
  {
    var notifier := new N.FeishuNotifier(webhooks, DefaultTimeout);
    var result;
    result, sent := notifier.SendText(Some(text), post);
    if result.Success? && result.value {
      r := ReturnedTrue;
    } else {
      r := Exited(1, SendFailed(result.error));
    }
  }

  /** `send`: a missing or blank message exits with 1 before anything is
      loaded; otherwise the message is delivered as it was given. */
  method Send(message: Option<string>, configPath: Option<string>, env: C.Environment, fs: C.FileSystem,
              post: (nat, N.Request) -> N.Reply)
    returns (r: Exit, trace: seq<Step>, sent: seq<N.Request>)
    ensures message.None? || IsBlank(message.value) ==> r == Exited(1, EmptyMessage) && trace == [] && sent == []
    ensures message.Some? && !IsBlank(message.value) ==>
      Delivers(C.LoadSettings(configPath, env, fs), message.value, configPath, post, r, trace, sent)
  {
    if message.None? || message.value == "" || Strip(message.value) == "" {
      return Exited(1, EmptyMessage), [], [];
    }
    r, trace, sent := Deliver(message.value, configPath, env, fs, post);
  }

  /** The first line of the test message. */
  const TestHeading := "飞书机器人测试消息\n"

  /** The text `test` sends, given the formatted current time. */
  function TestMessage(now: string): (m: string)
    ensures !IsBlank(m)
    ensures StartsWith(m, TestHeading)
  {
    var m := TestHeading + ("发送时间: " + now);
    assert m[..|TestHeading|] == TestHeading;
    assert !IsSpace(m[0]);
    m
  }

  /** `test`: deliver the timestamped test message. */
  method Test(configPath: Option<string>, now: string, env: C.Environment, fs: C.FileSystem,
              post: (nat, N.Request) -> N.Reply)
    returns (r: Exit, trace: seq<Step>, sent: seq<N.Request>)
    ensures Delivers(C.LoadSettings(configPath, env, fs), TestMessage(now), configPath, post, r, trace, sent)
  {
    r, trace, sent := Deliver(TestMessage(now), configPath, env, fs, post);
  }

  /** `FeishuCLI._mask_webhook`: the same mask as the configuration's. */
  function MaskWebhook(webhook: string): (masked: string)
    ensures masked == C.MaskWebhook(webhook)
  {
    if |webhook| <= 50 then webhook[..Min(10, |webhook|)] + "..." + webhook[|webhook| - Min(10, |webhook|)..]
    else webhook[..20] + "..." + webhook[|webhook| - 15..]
  }
}
