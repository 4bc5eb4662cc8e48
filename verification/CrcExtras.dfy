/** The extra byte of each message, derived from the message's definition. */
module CrcExtras {
  import opened Bytes
  import opened Items
  import opened Crc
  import opened Frames

  /** A field of a message definition. */
  datatype Field = Field(kind: string, name: string) {
    function Text(): string {
      kind + " " + name + " "
    }
  }

  function FieldsText(fields: seq<Field>): string {
    if fields == [] then "" else fields[0].Text() + FieldsText(fields[1..])
  }

  /** What the extra byte is computed from: the name, then the fields in wire order. */
  function DefinitionText(name: string, fields: seq<Field>): string {
    name + " " + FieldsText(fields)
  }

  function Code(c: char): uint8 {
    if c as int < 128 then c as int as uint8 else 0
  }

  function Ascii(s: string): (bs: seq<uint8>)
    ensures |bs| == |s| && forall i :: 0 <= i < |s| ==> bs[i] == Code(s[i])
  {
    seq(|s|, i requires 0 <= i < |s| => Code(s[i]))
  }

  /** The low byte xor the high byte of the checksum register of the definition. */
  function DefinedExtra(name: string, fields: seq<Field>): bv8 {
    var r := Register(0xffff, Ascii(DefinitionText(name, fields)));
    ((r & 0xff) as bv8) ^ ((r >> 8) as bv8)
  }

  const HEARTBEAT_FIELDS := [
    Field("uint32_t", "custom_mode"), Field("uint8_t", "type"), Field("uint8_t", "autopilot"),
    Field("uint8_t", "base_mode"), Field("uint8_t", "system_status"), Field("uint8_t", "mavlink_version")]

  const STATUS_FIELDS := [
    Field("uint32_t", "onboard_control_sensors_present"),
    Field("uint32_t", "onboard_control_sensors_enabled"), Field("uint32_t", "onboard_control_sensors_health"),
    Field("uint16_t", "load"), Field("uint16_t", "voltage_battery"), Field("int16_t", "current_battery"),
    Field("uint16_t", "drop_rate_comm"), Field("uint16_t", "errors_comm"), Field("uint16_t", "errors_count1"),
    Field("uint16_t", "errors_count2"), Field("uint16_t", "errors_count3"),
    Field("uint16_t", "errors_count4"), Field("int8_t", "battery_remaining")]

  const POSITION_FIELDS := [
    Field("uint32_t", "time_boot_ms"), Field("int32_t", "lat"), Field("int32_t", "lon"),
    Field("int32_t", "alt"), Field("int32_t", "relative_alt"), Field("int16_t", "vx"), Field("int16_t", "vy"),
    Field("int16_t", "vz"), Field("uint16_t", "hdg")]

  const COMMAND_FIELDS := [
    Field("float", "param1"), Field("float", "param2"), Field("float", "param3"), Field("float", "param4"),
    Field("float", "param5"), Field("float", "param6"), Field("float", "param7"),
    Field("uint16_t", "command"), Field("uint8_t", "target_system"), Field("uint8_t", "target_component"),
    Field("uint8_t", "confirmation")]

  const ACK_FIELDS := [
    Field("uint16_t", "command"), Field("uint8_t", "result")]

  // ---- The register, word by word ----

  function Letter(c: char): bv8 {
    ToBits(Code(c))
  }

  function Said(crc: bv16, s: string): bv16
    decreases |s|
  {
    if |s| == 0 then crc else Said(Step(crc, Letter(s[0])), s[1..])
  }

  lemma {:induction false} SaidIsRegister(crc: bv16, s: string)
    ensures Said(crc, s) == Register(crc, Ascii(s))
    decreases |s|
  {
    hide Step, Bit8, Xor, ToBits, Code;
    if s == [] {
      assert Ascii(s) == [];
    } else {
      StepIsEightBits(crc, Letter(s[0]));
      assert Ascii(s)[1..] == Ascii(s[1..]);
      SaidIsRegister(Step(crc, Letter(s[0])), s[1..]);
    }
  }

  lemma {:induction false} SaidAppend(crc: bv16, s: string, t: string)
    ensures Said(crc, s + t) == Said(Said(crc, s), t)
    decreases |s|
  {
    hide Step, Letter;
    if s == [] {
      assert s + t == t;
    } else {
      assert (s + t)[1..] == s[1..] + t;
      SaidAppend(Step(crc, Letter(s[0])), s[1..], t);
    }
  }

  function SaidField(crc: bv16, f: Field): bv16 {
    Said(Said(Said(Said(crc, f.kind), " "), f.name), " ")
  }

  function SaidFields(crc: bv16, fields: seq<Field>): bv16
    decreases |fields|
  {
    if |fields| == 0 then crc else SaidFields(SaidField(crc, fields[0]), fields[1..])
  }

  lemma SaidFieldText(crc: bv16, f: Field)
    ensures Said(crc, f.Text()) == SaidField(crc, f)
  {
    hide Said;
    SaidAppend(crc, f.kind + " " + f.name, " ");
    SaidAppend(crc, f.kind + " ", f.name);
    SaidAppend(crc, f.kind, " ");
  }

  lemma {:induction false} SaidFieldsText(crc: bv16, fields: seq<Field>)
    ensures Said(crc, FieldsText(fields)) == SaidFields(crc, fields)
    decreases |fields|
  {
    hide Said, Field.Text, SaidField;
    if fields == [] {
      SaidNothing(crc);
    } else {
      SaidAppend(crc, fields[0].Text(), FieldsText(fields[1..]));
      SaidFieldText(crc, fields[0]);
      SaidFieldsText(SaidField(crc, fields[0]), fields[1..]);
    }
  }

  lemma SaidNothing(crc: bv16)
    ensures Said(crc, "") == crc
  {
  }

  /** The register of a definition is what its words leave one after the other. */
  lemma DefinitionSaid(name: string, fields: seq<Field>)
    ensures Register(0xffff, Ascii(DefinitionText(name, fields)))
         == SaidFields(Said(Said(0xffff, name), " "), fields)
  {
    hide Said, Register, Ascii;
    SaidIsRegister(0xffff, DefinitionText(name, fields));
    SaidAppend(0xffff, name + " ", FieldsText(fields));
    SaidAppend(0xffff, name, " ");
    SaidFieldsText(Said(0xffff, name + " "), fields);
  }

  // ---- Evaluation ----

  lemma Letters()
    ensures Letter(' ') == 0x20 && Letter('1') == 0x31 && Letter('2') == 0x32 && Letter('3') == 0x33
    ensures Letter('4') == 0x34 && Letter('5') == 0x35 && Letter('6') == 0x36 && Letter('7') == 0x37
    ensures Letter('8') == 0x38 && Letter('A') == 0x41 && Letter('B') == 0x42 && Letter('C') == 0x43
    ensures Letter('D') == 0x44 && Letter('E') == 0x45 && Letter('G') == 0x47 && Letter('H') == 0x48
    ensures Letter('I') == 0x49 && Letter('K') == 0x4b && Letter('L') == 0x4c && Letter('M') == 0x4d
    ensures Letter('N') == 0x4e && Letter('O') == 0x4f && Letter('P') == 0x50 && Letter('R') == 0x52
    ensures Letter('S') == 0x53 && Letter('T') == 0x54 && Letter('U') == 0x55 && Letter('Y') == 0x59
    ensures Letter('_') == 0x5f && Letter('a') == 0x61 && Letter('b') == 0x62 && Letter('c') == 0x63
    ensures Letter('d') == 0x64 && Letter('e') == 0x65 && Letter('f') == 0x66 && Letter('g') == 0x67
    ensures Letter('h') == 0x68 && Letter('i') == 0x69 && Letter('k') == 0x6b && Letter('l') == 0x6c
    ensures Letter('m') == 0x6d && Letter('n') == 0x6e && Letter('o') == 0x6f && Letter('p') == 0x70
    ensures Letter('r') == 0x72 && Letter('s') == 0x73 && Letter('t') == 0x74 && Letter('u') == 0x75
    ensures Letter('v') == 0x76 && Letter('x') == 0x78 && Letter('y') == 0x79 && Letter('z') == 0x7a
  {
  }

  /** A long name is said in two parts. */
  lemma SaidInTwo(crc: bv16, f: Field, first: string, second: string)
    requires f.name == first + second
    ensures SaidField(crc, f) == Said(Said(Said(Said(Said(crc, f.kind), " "), first), second), " ")
  {
    hide Said;
    SaidAppend(Said(Said(crc, f.kind), " "), first, second);
  }

  lemma SaidSensors(crc: bv16, word: string)
    ensures SaidField(crc, Field("uint32_t", "onboard_control_sensors_" + word))
         == Said(Said(Said(Said(Said(Said(Said(crc, "uint32_t"), " "),
            "onboard_"), "control_"), "sensors_"), word), " ")
  {
    hide Said;
    var c := Said(Said(crc, "uint32_t"), " ");
    assert "onboard_control_sensors_" + word == "onboard_" + ("control_" + ("sensors_" + word));
    SaidAppend(c, "onboard_", "control_" + ("sensors_" + word));
    SaidAppend(Said(c, "onboard_"), "control_", "sensors_" + word);
    SaidAppend(Said(Said(c, "onboard_"), "control_"), "sensors_", word);
  }

  lemma HeartbeatWords1()
    ensures Said(Said(0xffff, "HEARTBEAT"), " ") == 0xa72c
  { hide Code, Letter; Letters(); }

  lemma HeartbeatWords2()
    ensures SaidField(0xa72c, Field("uint32_t", "custom_mode")) == 0x2ad6
  { hide Code, Letter; Letters(); }

  lemma HeartbeatWords3()
    ensures SaidField(0x2ad6, Field("uint8_t", "type")) == 0x76dd
  { hide Code, Letter; Letters(); }

  lemma HeartbeatWords4()
    ensures SaidField(0x76dd, Field("uint8_t", "autopilot")) == 0x31cf
  { hide Code, Letter; Letters(); }

  lemma HeartbeatWords5()
    ensures SaidField(0x31cf, Field("uint8_t", "base_mode")) == 0xb9ac
  { hide Code, Letter; Letters(); }

  lemma HeartbeatWords6()
    ensures Said(Said(Said(0xb9ac, "uint8_t"), " "), "system_") == 0xda36
  { hide Code, Letter; Letters(); }

  lemma HeartbeatWords7()
    ensures Said(Said(0xda36, "status"), " ") == 0x4e50
  { hide Code, Letter; Letters(); }

  lemma HeartbeatWords8()
    ensures Said(Said(Said(0x4e50, "uint8_t"), " "), "mavlink_") == 0x363d
  { hide Code, Letter; Letters(); }

  lemma HeartbeatWords9()
    ensures Said(Said(0x363d, "version"), " ") == 0x2c1e
  { hide Code, Letter; Letters(); }

  lemma HeartbeatLongNames()
    ensures SaidField(0xb9ac, Field("uint8_t", "system_status")) == 0x4e50
    ensures SaidField(0x4e50, Field("uint8_t", "mavlink_version")) == 0x2c1e
  {
    hide Said;
    assert "system_status" == "system_" + "status";
    SaidInTwo(0xb9ac, Field("uint8_t", "system_status"), "system_", "status");
    HeartbeatWords6(); HeartbeatWords7();
    assert "mavlink_version" == "mavlink_" + "version";
    SaidInTwo(0x4e50, Field("uint8_t", "mavlink_version"), "mavlink_", "version");
    HeartbeatWords8(); HeartbeatWords9();
  }

  lemma HeartbeatDefined()
    ensures DefinedExtra("HEARTBEAT", HEARTBEAT_FIELDS) == 0x32
  {
    hide Said, SaidField, Register, Ascii, DefinitionText;
    DefinitionSaid("HEARTBEAT", HEARTBEAT_FIELDS);
    HeartbeatWords1();
    HeartbeatWords2();
    HeartbeatWords3();
    HeartbeatWords4();
    HeartbeatWords5();
    HeartbeatLongNames();
  }

  lemma StatusWords1()
    ensures Said(Said(0xffff, "SYS_STATUS"), " ") == 0xb107
  { hide Code, Letter; Letters(); }

  lemma StatusWords2()
    ensures Said(Said(Said(0xb107, "uint32_t"), " "), "onboard_") == 0xac0e
  { hide Code, Letter; Letters(); }

  lemma StatusWords3()
    ensures Said(Said(0xac0e, "control_"), "sensors_") == 0xb793
  { hide Code, Letter; Letters(); }

  lemma StatusWords4()
    ensures Said(Said(0xb793, "present"), " ") == 0xecc1
  { hide Code, Letter; Letters(); }

  lemma StatusWords5()
    ensures Said(Said(Said(0xecc1, "uint32_t"), " "), "onboard_") == 0x699c
  { hide Code, Letter; Letters(); }

  lemma StatusWords6()
    ensures Said(Said(0x699c, "control_"), "sensors_") == 0xe26b
  { hide Code, Letter; Letters(); }

  lemma StatusWords7()
    ensures Said(Said(0xe26b, "enabled"), " ") == 0x223c
  { hide Code, Letter; Letters(); }

  lemma StatusWords8()
    ensures Said(Said(Said(0x223c, "uint32_t"), " "), "onboard_") == 0x1af8
  { hide Code, Letter; Letters(); }

  lemma StatusWords9()
    ensures Said(Said(0x1af8, "control_"), "sensors_") == 0xbbfb
  { hide Code, Letter; Letters(); }

  lemma StatusWords10()
    ensures Said(Said(0xbbfb, "health"), " ") == 0x2ad2
  { hide Code, Letter; Letters(); }

  lemma StatusWords11()
    ensures SaidField(0x2ad2, Field("uint16_t", "load")) == 0x4405
  { hide Code, Letter; Letters(); }

  lemma StatusWords12()
    ensures Said(Said(Said(0x4405, "uint16_t"), " "), "voltage_") == 0x7b80
  { hide Code, Letter; Letters(); }

  lemma StatusWords13()
    ensures Said(Said(0x7b80, "battery"), " ") == 0x6651
  { hide Code, Letter; Letters(); }

  lemma StatusWords14()
    ensures Said(Said(Said(0x6651, "int16_t"), " "), "current_") == 0x9aed
  { hide Code, Letter; Letters(); }

  lemma StatusWords15()
    ensures Said(Said(0x9aed, "battery"), " ") == 0xb2c0
  { hide Code, Letter; Letters(); }

  lemma StatusWords16()
    ensures Said(Said(Said(0xb2c0, "uint16_t"), " "), "drop_") == 0xa588
  { hide Code, Letter; Letters(); }

  lemma StatusWords17()
    ensures Said(Said(0xa588, "rate_comm"), " ") == 0x8f4a
  { hide Code, Letter; Letters(); }

  lemma StatusWords18()
    ensures SaidField(0x8f4a, Field("uint16_t", "errors_comm")) == 0x3a3a
  { hide Code, Letter; Letters(); }

  lemma StatusWords19()
    ensures Said(Said(Said(0x3a3a, "uint16_t"), " "), "errors_") == 0x68e4
  { hide Code, Letter; Letters(); }

  lemma StatusWords20()
    ensures Said(Said(0x68e4, "count1"), " ") == 0x3414
  { hide Code, Letter; Letters(); }

  lemma StatusWords21()
    ensures Said(Said(Said(0x3414, "uint16_t"), " "), "errors_") == 0xa6ed
  { hide Code, Letter; Letters(); }

  lemma StatusWords22()
    ensures Said(Said(0xa6ed, "count2"), " ") == 0x6194
  { hide Code, Letter; Letters(); }

  lemma StatusWords23()
    ensures Said(Said(Said(0x6194, "uint16_t"), " "), "errors_") == 0xdb3d
  { hide Code, Letter; Letters(); }

  lemma StatusWords24()
    ensures Said(Said(0xdb3d, "count3"), " ") == 0x7c40
  { hide Code, Letter; Letters(); }

  lemma StatusWords25()
    ensures Said(Said(Said(0x7c40, "uint16_t"), " "), "errors_") == 0x73c5
  { hide Code, Letter; Letters(); }

  lemma StatusWords26()
    ensures Said(Said(0x73c5, "count4"), " ") == 0xd96f
  { hide Code, Letter; Letters(); }

  lemma StatusWords27()
    ensures Said(Said(Said(0xd96f, "int8_t"), " "), "battery_") == 0x1af5
  { hide Code, Letter; Letters(); }

  lemma StatusWords28()
    ensures Said(Said(0x1af5, "remaining"), " ") == 0x522e
  { hide Code, Letter; Letters(); }

  lemma StatusLongNames1()
    ensures SaidField(0xb107, Field("uint32_t", "onboard_control_sensors_present")) == 0xecc1
    ensures SaidField(0xecc1, Field("uint32_t", "onboard_control_sensors_enabled")) == 0x223c
    ensures SaidField(0x223c, Field("uint32_t", "onboard_control_sensors_health")) == 0x2ad2
  {
    hide Said;
    assert "onboard_control_sensors_present" == "onboard_control_sensors_" + "present";
    SaidSensors(0xb107, "present");
    StatusWords2(); StatusWords3(); StatusWords4();
    assert "onboard_control_sensors_enabled" == "onboard_control_sensors_" + "enabled";
    SaidSensors(0xecc1, "enabled");
    StatusWords5(); StatusWords6(); StatusWords7();
    assert "onboard_control_sensors_health" == "onboard_control_sensors_" + "health";
    SaidSensors(0x223c, "health");
    StatusWords8(); StatusWords9(); StatusWords10();
  }

  lemma StatusLongNames2()
    ensures SaidField(0x4405, Field("uint16_t", "voltage_battery")) == 0x6651
    ensures SaidField(0x6651, Field("int16_t", "current_battery")) == 0xb2c0
    ensures SaidField(0xb2c0, Field("uint16_t", "drop_rate_comm")) == 0x8f4a
  {
    hide Said;
    assert "voltage_battery" == "voltage_" + "battery";
    SaidInTwo(0x4405, Field("uint16_t", "voltage_battery"), "voltage_", "battery");
    StatusWords12(); StatusWords13();
    assert "current_battery" == "current_" + "battery";
    SaidInTwo(0x6651, Field("int16_t", "current_battery"), "current_", "battery");
    StatusWords14(); StatusWords15();
    assert "drop_rate_comm" == "drop_" + "rate_comm";
    SaidInTwo(0xb2c0, Field("uint16_t", "drop_rate_comm"), "drop_", "rate_comm");
    StatusWords16(); StatusWords17();
  }

  lemma StatusLongNames3()
    ensures SaidField(0x3a3a, Field("uint16_t", "errors_count1")) == 0x3414
    ensures SaidField(0x3414, Field("uint16_t", "errors_count2")) == 0x6194
    ensures SaidField(0x6194, Field("uint16_t", "errors_count3")) == 0x7c40
  {
    hide Said;
    assert "errors_count1" == "errors_" + "count1";
    SaidInTwo(0x3a3a, Field("uint16_t", "errors_count1"), "errors_", "count1");
    StatusWords19(); StatusWords20();
    assert "errors_count2" == "errors_" + "count2";
    SaidInTwo(0x3414, Field("uint16_t", "errors_count2"), "errors_", "count2");
    StatusWords21(); StatusWords22();
    assert "errors_count3" == "errors_" + "count3";
    SaidInTwo(0x6194, Field("uint16_t", "errors_count3"), "errors_", "count3");
    StatusWords23(); StatusWords24();
  }

  lemma StatusLongNames4()
    ensures SaidField(0x7c40, Field("uint16_t", "errors_count4")) == 0xd96f
    ensures SaidField(0xd96f, Field("int8_t", "battery_remaining")) == 0x522e
  {
    hide Said;
    assert "errors_count4" == "errors_" + "count4";
    SaidInTwo(0x7c40, Field("uint16_t", "errors_count4"), "errors_", "count4");
    StatusWords25(); StatusWords26();
    assert "battery_remaining" == "battery_" + "remaining";
    SaidInTwo(0xd96f, Field("int8_t", "battery_remaining"), "battery_", "remaining");
    StatusWords27(); StatusWords28();
  }

  lemma StatusDefined()
    ensures DefinedExtra("SYS_STATUS", STATUS_FIELDS) == 0x7c
  {
    hide Said, SaidField, Register, Ascii, DefinitionText;
    DefinitionSaid("SYS_STATUS", STATUS_FIELDS);
    StatusWords1();
    StatusWords11();
    StatusWords18();
    StatusLongNames1();
    StatusLongNames2();
    StatusLongNames3();
    StatusLongNames4();
  }

  lemma PositionWords1()
    ensures Said(Said(0xffff, "GLOBAL_"), "POSITION_") == 0x4c70
  { hide Code, Letter; Letters(); }

  lemma PositionWords2()
    ensures Said(Said(0x4c70, "INT"), " ") == 0x95bc
  { hide Code, Letter; Letters(); }

  lemma PositionWords3()
    ensures Said(Said(Said(0x95bc, "uint32_t"), " "), "time_") == 0xaa78
  { hide Code, Letter; Letters(); }

  lemma PositionWords4()
    ensures Said(Said(0xaa78, "boot_ms"), " ") == 0x28bb
  { hide Code, Letter; Letters(); }

  lemma PositionWords5()
    ensures SaidField(0x28bb, Field("int32_t", "lat")) == 0x481c
  { hide Code, Letter; Letters(); }

  lemma PositionWords6()
    ensures SaidField(0x481c, Field("int32_t", "lon")) == 0x1881
  { hide Code, Letter; Letters(); }

  lemma PositionWords7()
    ensures SaidField(0x1881, Field("int32_t", "alt")) == 0x991c
  { hide Code, Letter; Letters(); }

  lemma PositionWords8()
    ensures Said(Said(Said(0x991c, "int32_t"), " "), "relative_") == 0xb6ce
  { hide Code, Letter; Letters(); }

  lemma PositionWords9()
    ensures Said(Said(0xb6ce, "alt"), " ") == 0x5a17
  { hide Code, Letter; Letters(); }

  lemma PositionWords10()
    ensures SaidField(0x5a17, Field("int16_t", "vx")) == 0x69a8
  { hide Code, Letter; Letters(); }

  lemma PositionWords11()
    ensures SaidField(0x69a8, Field("int16_t", "vy")) == 0x6766
  { hide Code, Letter; Letters(); }

  lemma PositionWords12()
    ensures SaidField(0x6766, Field("int16_t", "vz")) == 0xda36
  { hide Code, Letter; Letters(); }

  lemma PositionWords13()
    ensures SaidField(0xda36, Field("uint16_t", "hdg")) == 0xfb93
  { hide Code, Letter; Letters(); }

  lemma PositionLongNames()
    ensures Said(Said(0xffff, "GLOBAL_POSITION_INT"), " ") == 0x95bc
    ensures SaidField(0x95bc, Field("uint32_t", "time_boot_ms")) == 0x28bb
    ensures SaidField(0x991c, Field("int32_t", "relative_alt")) == 0x5a17
  {
    hide Said;
    assert "GLOBAL_POSITION_INT" == "GLOBAL_" + ("POSITION_" + "INT");
    SaidAppend(0xffff, "GLOBAL_", "POSITION_" + "INT");
    SaidAppend(Said(0xffff, "GLOBAL_"), "POSITION_", "INT");
    PositionWords1(); PositionWords2();
    assert "time_boot_ms" == "time_" + "boot_ms";
    SaidInTwo(0x95bc, Field("uint32_t", "time_boot_ms"), "time_", "boot_ms");
    PositionWords3(); PositionWords4();
    assert "relative_alt" == "relative_" + "alt";
    SaidInTwo(0x991c, Field("int32_t", "relative_alt"), "relative_", "alt");
    PositionWords8(); PositionWords9();
  }

  lemma PositionDefined()
    ensures DefinedExtra("GLOBAL_POSITION_INT", POSITION_FIELDS) == 0x68
  {
    hide Said, SaidField, Register, Ascii, DefinitionText;
    DefinitionSaid("GLOBAL_POSITION_INT", POSITION_FIELDS);
    PositionWords5();
    PositionWords6();
    PositionWords7();
    PositionWords10();
    PositionWords11();
    PositionWords12();
    PositionWords13();
    PositionLongNames();
  }

  lemma CommandWords1()
    ensures Said(Said(0xffff, "COMMAND_LONG"), " ") == 0x5983
  { hide Code, Letter; Letters(); }

  lemma CommandWords2()
    ensures SaidField(0x5983, Field("float", "param1")) == 0x5848
  { hide Code, Letter; Letters(); }

  lemma CommandWords3()
    ensures SaidField(0x5848, Field("float", "param2")) == 0x7119
  { hide Code, Letter; Letters(); }

  lemma CommandWords4()
    ensures SaidField(0x7119, Field("float", "param3")) == 0xf0e4
  { hide Code, Letter; Letters(); }

  lemma CommandWords5()
    ensures SaidField(0xf0e4, Field("float", "param4")) == 0xe28b
  { hide Code, Letter; Letters(); }

  lemma CommandWords6()
    ensures SaidField(0xe28b, Field("float", "param5")) == 0x0fea
  { hide Code, Letter; Letters(); }

  lemma CommandWords7()
    ensures SaidField(0x0fea, Field("float", "param6")) == 0xae01
  { hide Code, Letter; Letters(); }

  lemma CommandWords8()
    ensures SaidField(0xae01, Field("float", "param7")) == 0x8430
  { hide Code, Letter; Letters(); }

  lemma CommandWords9()
    ensures SaidField(0x8430, Field("uint16_t", "command")) == 0xa327
  { hide Code, Letter; Letters(); }

  lemma CommandWords10()
    ensures Said(Said(Said(0xa327, "uint8_t"), " "), "target_") == 0xa37e
  { hide Code, Letter; Letters(); }

  lemma CommandWords11()
    ensures Said(Said(0xa37e, "system"), " ") == 0xaacb
  { hide Code, Letter; Letters(); }

  lemma CommandWords12()
    ensures Said(Said(Said(0xaacb, "uint8_t"), " "), "target_") == 0xa222
  { hide Code, Letter; Letters(); }

  lemma CommandWords13()
    ensures Said(Said(0xa222, "component"), " ") == 0x04da
  { hide Code, Letter; Letters(); }

  lemma CommandWords14()
    ensures SaidField(0x04da, Field("uint8_t", "confirmation")) == 0xc951
  { hide Code, Letter; Letters(); }

  lemma CommandLongNames()
    ensures SaidField(0xa327, Field("uint8_t", "target_system")) == 0xaacb
    ensures SaidField(0xaacb, Field("uint8_t", "target_component")) == 0x04da
  {
    hide Said;
    assert "target_system" == "target_" + "system";
    SaidInTwo(0xa327, Field("uint8_t", "target_system"), "target_", "system");
    CommandWords10(); CommandWords11();
    assert "target_component" == "target_" + "component";
    SaidInTwo(0xaacb, Field("uint8_t", "target_component"), "target_", "component");
    CommandWords12(); CommandWords13();
  }

  lemma CommandDefined()
    ensures DefinedExtra("COMMAND_LONG", COMMAND_FIELDS) == 0x98
  {
    hide Said, SaidField, Register, Ascii, DefinitionText;
    DefinitionSaid("COMMAND_LONG", COMMAND_FIELDS);
    CommandWords1();
    CommandWords2();
    CommandWords3();
    CommandWords4();
    CommandWords5();
    CommandWords6();
    CommandWords7();
    CommandWords8();
    CommandWords9();
    CommandWords14();
    CommandLongNames();
  }

  lemma AckWords1()
    ensures Said(Said(0xffff, "COMMAND_ACK"), " ") == 0x19e6
  { hide Code, Letter; Letters(); }

  lemma AckWords2()
    ensures SaidField(0x19e6, Field("uint16_t", "command")) == 0xdc43
  { hide Code, Letter; Letters(); }

  lemma AckWords3()
    ensures SaidField(0xdc43, Field("uint8_t", "result")) == 0x5cd3
  { hide Code, Letter; Letters(); }

  lemma AckDefined()
    ensures DefinedExtra("COMMAND_ACK", ACK_FIELDS) == 0x8f
  {
    hide Said, SaidField, Register, Ascii, DefinitionText;
    DefinitionSaid("COMMAND_ACK", ACK_FIELDS);
    AckWords1();
    AckWords2();
    AckWords3();
  }

  /** The extra byte of every message known, and only of those, is what the message
      guide derives from its definition. */
  lemma ExtrasAreDefined(message: nat)
    ensures CrcExtra(message).Some? <==>
      message == 0 || message == 1 || message == 33 || message == 76 || message == 77
    ensures message == 0 ==> ToBits(CrcExtra(message).value) == DefinedExtra("HEARTBEAT", HEARTBEAT_FIELDS)
    ensures message == 1 ==> ToBits(CrcExtra(message).value) == DefinedExtra("SYS_STATUS", STATUS_FIELDS)
    ensures message == 33 ==>
      ToBits(CrcExtra(message).value) == DefinedExtra("GLOBAL_POSITION_INT", POSITION_FIELDS)
    ensures message == 76 ==> ToBits(CrcExtra(message).value) == DefinedExtra("COMMAND_LONG", COMMAND_FIELDS)
    ensures message == 77 ==> ToBits(CrcExtra(message).value) == DefinedExtra("COMMAND_ACK", ACK_FIELDS)
  {
    hide DefinedExtra;
    HeartbeatDefined();
    StatusDefined();
    PositionDefined();
    CommandDefined();
    AckDefined();
  }
}
