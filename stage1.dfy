/** The first server, etapa1.c: one menu, one answer read with recv, a
    check that the answer holds only digits and line ends and names option
    1 or 2, and a reply for the option chosen. Nothing outlives one
    connection, so every routine here is a function of what recv returned. */
module Stage1 {
  import opened CText

  /** What the single recv of show_main_menu returned: some bytes, zero
      (the client closed the connection) or a negative count (an error). */
  datatype Received = Bytes(data: string) | Disconnected | ReadError

  /** The bytes the filter of show_main_menu lets through. */
  predicate MenuByte(c: char) { IsDigit(c) || c == '\n' || c == '\r' }

  predicate AllMenuBytes(s: string) { forall i :: 0 <= i < |s| ==> MenuByte(s[i]) }

  /** The four lines of the menu, sent before anything is read. */
  const MenuText: seq<string> := ["Hello, Welcome!\n", "Please select an option:\n", "\n1: Engineer\n", "2: Organization\n"]

  const ReadFailedNotice: string := "Erro ao processar sua solicita\U{E7}\U{E3}o. Por favor, tente novamente.\n"
  const DigitsOnlyNotice: string := "Entrada inv\U{E1}lida. Por favor, digite apenas n\U{FA}meros.\n"
  const OneOrTwoNotice: string := "Op\U{E7}\U{E3}o inv\U{E1}lida. Por favor, escolha 1 ou 2.\n"
  const InvalidOptionPrefix: string := "Op\U{E7}\U{E3}o inv\U{E1}lida recebida: "
  const ConcludedNotice: string := "\nSess\U{E3}o conclu\U{ED}da. Obrigado por utilizar nosso servi\U{E7}o!\n"
  const CannotProcessNotice: string := "N\U{E3}o foi poss\U{ED}vel processar sua solicita\U{E7}\U{E3}o. Encerrando conex\U{E3}o.\n"

  /** The answer show_main_menu accepts: only digits and line ends, read by
      atoi as 1 or 2. */
  predicate Accepted(r: Received) {
    r.Bytes? && AllMenuBytes(r.data) && 1 <= AtoI(r.data) <= 2
  }

  /** The notice show_main_menu sends when it returns -1, if any. */
  function Complaint(r: Received): seq<string> {
    match r
    case Disconnected => []
    case ReadError => [ReadFailedNotice]
    case Bytes(data) => if !AllMenuBytes(data) then [DigitsOnlyNotice] else if Accepted(r) then [] else [OneOrTwoNotice]
  }

  /** The reply process_option writes for an option. */
  function OptionReply(option: int): string {
    if option == 1 then "Engineer\n"
    else if option == 2 then "Organization\n"
    else InvalidOptionPrefix + Decimal(option) + "\n"
  }

  /** The byte filter of show_main_menu: every byte received is a digit, a
      newline or a carriage return. */
  method OnlyMenuBytes(buffer: string) returns (ok: bool)
    ensures ok <==> AllMenuBytes(buffer)
    ensures !ok ==> exists i :: 0 <= i < |buffer| && !MenuByte(buffer[i])
  {
    var i := 0;
    while i < |buffer|
      invariant 0 <= i <= |buffer|
      invariant forall j :: 0 <= j < i ==> MenuByte(buffer[j])
    {
      if buffer[i] != '\n' && buffer[i] != '\r' && (buffer[i] < '0' || buffer[i] > '9') {
        return false;
      }
      i := i + 1;
    }
    return true;
  }

  /** show_main_menu: -1 for a closed connection, a read error, a byte
      outside the filter or an atoi value outside 1..2; otherwise that
      value, so every other result is 1 or 2. */
  method ShowMainMenu(r: Received) returns (choice: int, sent: seq<string>)
    ensures choice == -1 || choice == 1 || choice == 2
    ensures choice != -1 <==> Accepted(r)
    ensures choice != -1 ==> choice == AtoI(r.data)
    ensures r.Bytes? && !AllMenuBytes(r.data) ==> choice == -1
    ensures sent == MenuText + Complaint(r)
    ensures choice != -1 ==> sent == MenuText
  {
    sent := MenuText;
    match r
    case ReadError =>
      sent := sent + [ReadFailedNotice];
      return -1, sent;
    case Disconnected =>
      return -1, sent;
    case Bytes(buffer) =>
      var ok := OnlyMenuBytes(buffer);
      if !ok {
        sent := sent + [DigitsOnlyNotice];
        return -1, sent;
      }
      var option := AtoI(buffer);
      if option <= 0 || option > 2 {
        sent := sent + [OneOrTwoNotice];
        return -1, sent;
      }
      return option, sent;
  }

  /** process_option: the reply for the option, then the closing notice. */
  method ProcessOption(option: int) returns (sent: seq<string>)
    ensures |sent| == 2 && sent[1] == ConcludedNotice
    ensures option == 1 <==> sent[0] == "Engineer\n"
    ensures option == 2 <==> sent[0] == "Organization\n"
    ensures option != 1 && option != 2 ==> sent[0] == InvalidOptionPrefix + Decimal(option) + "\n"
  {
    var response: string;
    if option == 1 {
      response := "Engineer\n";
    } else if option == 2 {
      response := "Organization\n";
    } else {
      response := InvalidOptionPrefix + Decimal(option) + "\n";
      assert response[..|InvalidOptionPrefix|] == InvalidOptionPrefix;
      assert response[1] != "Engineer\n"[1] && response[1] != "Organization\n"[1];
    }
    sent := [response, ConcludedNotice];
  }

  /** process_client: the menu; then the option's reply when show_main_menu
      did not return -1, and the closing notice of a refused session
      otherwise. The default branch of process_option is never reached. */
  method ProcessClient(r: Received) returns (sent: seq<string>)
    ensures Accepted(r) ==> sent == MenuText + [OptionReply(AtoI(r.data)), ConcludedNotice]
    ensures !Accepted(r) ==> sent == MenuText + Complaint(r) + [CannotProcessNotice]
    ensures Accepted(r) ==> sent[4] == "Engineer\n" || sent[4] == "Organization\n"
  {
    var chosen, menu := ShowMainMenu(r);
    if chosen != -1 {
      var reply := ProcessOption(chosen);
      sent := menu + reply;
    } else {
      sent := menu + [CannotProcessNotice];
    }
  }

  /** The reply to an option other than 1 or 2 carries the option: the text
      between the prefix and the newline reads back, through strtol, as the
      option itself. */
  lemma InvalidOptionCarriesNumber(option: int)
    requires IsInt32(option) && option != 1 && option != 2
    ensures var m := OptionReply(option);
      |InvalidOptionPrefix| < |m| && m[..|InvalidOptionPrefix|] == InvalidOptionPrefix && m[|m| - 1] == '\n'
      && WholeNumber(m[|InvalidOptionPrefix|..|m| - 1]) == Some(option)
  {
    var m := OptionReply(option);
    assert m[|InvalidOptionPrefix|..|m| - 1] == Decimal(option);
    DecimalRoundTrip(option);
  }

  /** The three kinds of reply are told apart: two different options never
      get the same reply. */
  lemma OptionReplyInjective(a: int, b: int)
    requires IsInt32(a) && IsInt32(b) && OptionReply(a) == OptionReply(b)
    ensures a == b
  {
    var valid := a == 1 || a == 2;
    if !valid {
      InvalidOptionCarriesNumber(a);
      assert OptionReply(a)[1] == InvalidOptionPrefix[1];
    }
    if b != 1 && b != 2 {
      InvalidOptionCarriesNumber(b);
      assert OptionReply(b)[1] == InvalidOptionPrefix[1];
    }
  }

  /** A line holding just the digit 1 or 2 is accepted as that option. */
  lemma SingleDigitAccepted(d: char)
    requires d == '1' || d == '2'
    ensures Accepted(Bytes([d, '\n']))
    ensures AtoI([d, '\n']) == d as int - '0' as int
  {
    var s := [d, '\n'];
    assert SkipIn(s, Whitespace) == s;
    assert LeadingDigits(s[0..]) == 1;
    assert s[0..][..1] == [d];
    assert DigitsValue([d]) == d as int - '0' as int by {
      assert [d][..0] == [];
    }
  }

  /** atoi's conversion to int wraps: "4294967297" passes the filter and the
      range check as option 1. */
  lemma WrappedOptionAccepted()
    ensures Accepted(Bytes("4294967297")) && AtoI("4294967297") == 1
  {
    DigitsOf429496729();
    DigitsSnoc("429496729", '7');
    assert "429496729" + ['7'] == "4294967297";
    assert DigitsValue("4294967297") == 4294967297;
    DigitsAsNumber("4294967297");
    assert ClampLong(4294967297) == 4294967297;
    assert ToInt32(4294967297) == 1 by {
      assert 4294967297 == 0x1_0000_0000 + 1;
      assert 4294967297 % 0x1_0000_0000 == 1;
    }
    assert AllMenuBytes("4294967297") by {
      assert AllDigits("4294967297");
    }
  }
}
