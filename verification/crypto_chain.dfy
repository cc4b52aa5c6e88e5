/** The encryption tool's chain of responsibility: each handler does its
    step and forwards the request to its successor; the key validator stops
    the chain on a key of the wrong length. The file, DES and console steps
    are abstract: a run records which handlers ran, in order. */
module CryptoChain {
  datatype CryptoMode = Encryption | Decryption

  datatype IOMode = Console | BinaryFile | TextFile

  datatype HandlerKind = ValidateKey | ReadFile | WriteFile | Encrypt | Decrypt | Output

  /** A chain, head first: each handler's successor is the next element. */
  type Chain = seq<HandlerKind>

  /** The key lengths DES accepts: single, double and triple keys. */
  predicate ValidKeyLength(n: nat) {
    n == 8 || n == 16 || n == 24
  }

  /** Bytes one character takes in UTF-8. */
  function Utf8Width(c: char): (r: nat)
    ensures 1 <= r <= 4
    ensures r == 1 <==> c < 0x80 as char
  {
    if c < 0x80 as char then 1
    else if c < 0x800 as char then 2
    else if c < 0x1_0000 as char then 3
    else 4
  }

  /** The length of `key.encode('utf-8')`, the key DES is given; the
      validator counts characters instead. */
  function Utf8Length(key: string): (r: nat)
    ensures r >= |key|
  {
    if |key| == 0 then 0 else Utf8Width(key[0]) + Utf8Length(key[1..])
  }

  /** An ASCII key takes one byte per character, so its two lengths agree;
      any other character makes the byte length exceed the character count. */
  lemma {:induction false} Utf8LengthAscii(key: string)
    ensures Utf8Length(key) == |key| <==> forall i :: 0 <= i < |key| ==> key[i] < 0x80 as char
  {
    if |key| > 0 {
      Utf8LengthAscii(key[1..]);
      assert forall i :: 1 <= i < |key| ==> key[i] == key[1..][i - 1];
      if Utf8Width(key[0]) == 1 {
        assert forall i :: 0 <= i < |key| - 1 ==> key[1..][i] == key[i + 1];
      }
    }
  }

  /** What the steps meet outside the chain: the input file opens and reads,
      the output file opens for writing, and the input data decrypts and
      decodes as UTF-8. */
  datatype Env = Env(inputReadable: bool, outputWritable: bool, decrypts: bool)

  /** The handlers whose step raises before forwarding: `open` on the input
      or output file, `des.DesKey` on a key of the wrong byte length, and
      the decryption or its `decode('utf-8')`. Nothing catches the
      exception, so it ends the run. */
  predicate Raises(h: HandlerKind, key: string, env: Env) {
    match h
    case ValidateKey => false
    case ReadFile => !env.inputReadable
    case WriteFile => !env.outputWritable
    case Encrypt => !ValidKeyLength(Utf8Length(key))
    case Decrypt => !ValidKeyLength(Utf8Length(key)) || !env.decrypts
    case Output => false
  }

  /** A handler that does not forward: the validator on a key of the wrong
      character count, or a step that raises. */
  predicate Stops(h: HandlerKind, key: string, env: Env) {
    (h == ValidateKey && !ValidKeyLength(|key|)) || Raises(h, key, env)
  }

  /** How a run ends: the status the head returns, or the handler whose
      exception ended it. */
  datatype Status = Returned(ok: bool) | Raised(handler: HandlerKind)

  /** The handlers that ran, in order, and how the run ended. */
  datatype Outcome = Outcome(status: Status, ran: seq<HandlerKind>)

  /** `handle_request` of the chain's head: the last handler returns True,
      the validator returns False on a key of the wrong length, a step
      that raises ends the run there, and every other handler forwards
      after its step. */
  function Run(chain: Chain, key: string, env: Env): (r: Outcome)
    ensures |r.ran| <= |chain| && r.ran == chain[..|r.ran|]
    ensures |chain| > 0 ==> |r.ran| > 0
  {
    if |chain| == 0 then Outcome(Returned(true), [])
    else if chain[0] == ValidateKey && !ValidKeyLength(|key|) then Outcome(Returned(false), [ValidateKey])
    else if Raises(chain[0], key, env) then Outcome(Raised(chain[0]), [chain[0]])
    else
      var rest := Run(chain[1..], key, env);
      Outcome(rest.status, [chain[0]] + rest.ran)
  }

  /** A run returns True exactly when no handler of the chain stops, and
      then every handler ran. Otherwise it ends at the first handler that
      stops: False from the validator, or that handler's exception. */
  lemma {:induction false} RunResult(chain: Chain, key: string, env: Env)
    ensures Run(chain, key, env).status == Returned(true) <==>
              forall i :: 0 <= i < |chain| ==> !Stops(chain[i], key, env)
    ensures Run(chain, key, env).status == Returned(true) ==> Run(chain, key, env).ran == chain
    ensures Run(chain, key, env).status != Returned(true) ==>
              var r := Run(chain, key, env); var n := |r.ran|;
              && n > 0 && Stops(r.ran[n - 1], key, env)
              && (forall i :: 0 <= i < n - 1 ==> !Stops(r.ran[i], key, env))
              && (r.status == Returned(false) ==> r.ran[n - 1] == ValidateKey)
              && (r.status.Raised? ==> r.status.handler == r.ran[n - 1] && Raises(r.ran[n - 1], key, env))
  {
    if |chain| > 0 {
      RunResult(chain[1..], key, env);
      assert forall i :: 1 <= i < |chain| ==> chain[i] == chain[1..][i - 1];
      var r := Run(chain, key, env);
      if !Stops(chain[0], key, env) {
        var rest := Run(chain[1..], key, env);
        assert r.ran == [chain[0]] + rest.ran;
        if r.status == Returned(true) {
          assert forall i :: 0 <= i < |chain| - 1 ==> chain[1..][i] == chain[i + 1];
        } else {
          assert forall i :: 0 <= i < |rest.ran| ==> r.ran[i + 1] == rest.ran[i];
        }
      }
    }
  }

  /** `setup_handlers`: the chain for each combination of crypto mode,
      input mode and output mode. Every combination without its own wiring
      leaves the validator alone. */
  function SetupHandlers(crypto: CryptoMode, input: IOMode, output: IOMode): (r: Chain)
    ensures |r| > 0 && r[0] == ValidateKey
  {
    match crypto
    case Encryption =>
      if input == Console then
        if output == Console then [ValidateKey, Encrypt, Output]
        else if output == BinaryFile then [ValidateKey, Encrypt, WriteFile]
        else [ValidateKey]
      else if input == TextFile then
        if output == Console then [ValidateKey, ReadFile, Encrypt, Output]
        else if output == BinaryFile then [ValidateKey, ReadFile, Encrypt, WriteFile]
        else [ValidateKey]
      else [ValidateKey]
    case Decryption =>
      if input == BinaryFile && output == Console then [ValidateKey, ReadFile, Decrypt, Output]
      else [ValidateKey]
  }

  /** The stage each handler belongs to: validation, input, cryptography,
      output. */
  function Stage(h: HandlerKind): nat {
    match h
    case ValidateKey => 0
    case ReadFile => 1
    case Encrypt => 2
    case Decrypt => 2
    case Output => 3
    case WriteFile => 3
  }

  /** Strictly increasing stages: no handler appears twice, reading comes
      before the cryptography and the cryptography before the output. */
  predicate Staged(c: Chain) {
    forall i, j :: 0 <= i < j < |c| ==> Stage(c[i]) < Stage(c[j])
  }

  /** Which combinations do real work, and what they wire. */
  predicate Wired(crypto: CryptoMode, input: IOMode, output: IOMode) {
    || (crypto == Encryption && (input == Console || input == TextFile) && (output == Console || output == BinaryFile))
    || (crypto == Decryption && input == BinaryFile && output == Console)
  }

  /** Every chain is staged; exactly the wired combinations get more than
      the validator; the wired chains read from a file iff the input is a
      text or binary file, use the crypto handler of the mode, and end in
      the console printer or the file writer as asked. */
  lemma SetupShape(crypto: CryptoMode, input: IOMode, output: IOMode)
    ensures Staged(SetupHandlers(crypto, input, output))
    ensures |SetupHandlers(crypto, input, output)| > 1 <==> Wired(crypto, input, output)
    ensures Wired(crypto, input, output) ==>
              var c := SetupHandlers(crypto, input, output);
              && (ReadFile in c <==> input != Console)
              && (Encrypt in c <==> crypto == Encryption) && (Decrypt in c <==> crypto == Decryption)
              && c[|c| - 1] == (if output == Console then Output else WriteFile)
  {
  }

  /** Running a configured chain: a key of the wrong character count
      returns False after the validator alone; otherwise the request
      succeeds iff no wired step raises, and then every wired handler ran;
      a step that raises ends the run with neither answer. */
  lemma ExecuteRequest(crypto: CryptoMode, input: IOMode, output: IOMode, key: string, env: Env)
    ensures var c := SetupHandlers(crypto, input, output); var r := Run(c, key, env);
      && (r.status == Returned(false) <==> !ValidKeyLength(|key|))
      && (!ValidKeyLength(|key|) ==> r.ran == [ValidateKey])
      && (r.status == Returned(true) <==> ValidKeyLength(|key|) && forall h :: h in c ==> !Raises(h, key, env))
      && (r.status == Returned(true) ==> r.ran == c)
      && (r.status.Raised? ==> r.status.handler in c && Raises(r.status.handler, key, env))
  {
    var c := SetupHandlers(crypto, input, output);
    RunResult(c, key, env);
    SetupShape(crypto, input, output);
    assert c[0] in c;
    var r := Run(c, key, env);
    if r.status == Returned(false) {
      var n := |r.ran|;
      assert r.ran[n - 1] == c[n - 1];
    }
    if r.status.Raised? {
      assert r.ran[|r.ran| - 1] == c[|r.ran| - 1];
    }
  }

  /** A key of eight characters that is nine bytes in UTF-8 passes the
      validator and then makes `des.DesKey` raise: the encryption run ends
      with an exception, neither True nor False. */
  lemma NonAsciiKeyRaises()
    ensures var key := "\U{e9}1234567"; var env := Env(true, true, true);
            && |key| == 8 && Utf8Length(key) == 9
            && Run(SetupHandlers(Encryption, Console, Console), key, env) == Outcome(Raised(Encrypt), [ValidateKey, Encrypt])
  {
    var key := "\U{e9}1234567";
    assert key[1..] == "1234567";
    assert Utf8Length("1234567") == 7;
  }
}
