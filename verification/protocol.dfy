/** The byte values of the command registry. */
module Cmd {
  import opened Bytes

  const Echo: byte := 0x01
  const CreateSession: byte := 0x03
  const AuthenticateSession: byte := 0x04
  const SessionMessage: byte := 0x05
  const GetDeviceInfo: byte := 0x06
  const ResetDevice: byte := 0x08
  const GetDevicePublicKey: byte := 0x0a
  const SessionObject: byte := 0x0b
  const DeriveEcdhKdf: byte := 0x0c
  const SignMlDsa: byte := 0x0d
  const EncapsulateMlKem: byte := 0x0e
  const DecapsulateMlKem: byte := 0x0f
  const EncapsulateHybridKem: byte := 0x10
  const DecapsulateHybridKem: byte := 0x11
  const CloseSession: byte := 0x40
  const GetStorageInfo: byte := 0x41
  const PutOpaque: byte := 0x42
  const GetOpaque: byte := 0x43
  const PutAuthenticationKey: byte := 0x44
  const PutAsymmetricKey: byte := 0x45
  const GenerateAsymmetricKey: byte := 0x46
  const SignPkcs1: byte := 0x47
  const ListObjects: byte := 0x48
  const DecryptPkcs1: byte := 0x49
  const ExportWrapped: byte := 0x4a
  const ImportWrapped: byte := 0x4b
  const PutWrapKey: byte := 0x4c
  const GetLogEntries: byte := 0x4d
  const GetObjectInfo: byte := 0x4e
  const SetOption: byte := 0x4f
  const GetOption: byte := 0x50
  const GetPseudoRandom: byte := 0x51
  const PutHmacKey: byte := 0x52
  const SignHmac: byte := 0x53
  const GetPublicKey: byte := 0x54
  const SignPss: byte := 0x55
  const SignEcdsa: byte := 0x56
  const DeriveEcdh: byte := 0x57
  const DeleteObject: byte := 0x58
  const DecryptOaep: byte := 0x59
  const GenerateHmacKey: byte := 0x5a
  const GenerateWrapKey: byte := 0x5b
  const VerifyHmac: byte := 0x5c
  const SignSshCertificate: byte := 0x5d
  const PutTemplate: byte := 0x5e
  const GetTemplate: byte := 0x5f
  const DecryptOtp: byte := 0x60
  const CreateOtpAead: byte := 0x61
  const RandomizeOtpAead: byte := 0x62
  const RewrapOtpAead: byte := 0x63
  const SignAttestationCertificate: byte := 0x64
  const PutOtpAeadKey: byte := 0x65
  const GenerateOtpAeadKey: byte := 0x66
  const SetLogIndex: byte := 0x67
  const WrapData: byte := 0x68
  const UnwrapData: byte := 0x69
  const SignEddsa: byte := 0x6a
  const BlinkDevice: byte := 0x6b
  const ChangeAuthenticationKey: byte := 0x6c
  const PutSymmetricKey: byte := 0x6d
  const GenerateSymmetricKey: byte := 0x6e
  const DecryptEcb: byte := 0x6f
  const EncryptEcb: byte := 0x70
  const DecryptCbc: byte := 0x71
  const EncryptCbc: byte := 0x72
  const PutPublicWrapKey: byte := 0x73
  const GetRsaWrappedKey: byte := 0x74
  const PutRsaWrappedKey: byte := 0x75
  const ExportRsaWrapped: byte := 0x76
  const ImportRsaWrapped: byte := 0x77
}

/** The command registry and the capability a session needs for each command. */
module Protocol {
  import opened Bytes
  import opened Errors
  import opened Capabilities
  import Cmd

  predicate IsCommand(b: byte) {
    || b == 0x01 || 0x03 <= b <= 0x06 || b == 0x08 || 0x0a <= b <= 0x11 || 0x40 <= b <= 0x77
  }

  type CommandCode = b: byte | IsCommand(b) witness 0x01

  function FromByte(b: byte): Option<CommandCode> {
    if IsCommand(b) then Some(b) else None
  }

  predicate SupportedCommand(f: Firmware, c: CommandCode) {
    if c == Cmd.DeriveEcdhKdf then f.prefixedEcdh
    else if c == Cmd.SessionObject then f.sessionObjects
    else Cmd.SignMlDsa <= c <= Cmd.DecapsulateHybridKem ==> f.postQuantum
  }

  function RequiredSessionCapability(c: CommandCode): Option<Capability> {
    match c
    case 0x08 /* ResetDevice */ => Some(RESET_DEVICE)
    case 0x0b /* SessionObject */ => Some(SESSION_OBJECTS)
    case 0x0c /* DeriveEcdhKdf */ => Some(DERIVE_ECDH_KDF)
    case 0x0d /* SignMlDsa */ => Some(SIGN_ML_DSA)
    case 0x0e /* EncapsulateMlKem */ => Some(ENCAPSULATE_ML_KEM)
    case 0x0f /* DecapsulateMlKem */ => Some(DECAPSULATE_ML_KEM)
    case 0x10 /* EncapsulateHybridKem */ => Some(ENCAPSULATE_HYBRID_KEM)
    case 0x11 /* DecapsulateHybridKem */ => Some(DECAPSULATE_HYBRID_KEM)
    case 0x42 /* PutOpaque */ => Some(PUT_OPAQUE)
    case 0x43 /* GetOpaque */ => Some(GET_OPAQUE)
    case 0x44 /* PutAuthenticationKey */ => Some(PUT_AUTHENTICATION_KEY)
    case 0x45 /* PutAsymmetricKey */ => Some(PUT_ASYMMETRIC_KEY)
    case 0x46 /* GenerateAsymmetricKey */ => Some(GENERATE_ASYMMETRIC_KEY)
    case 0x47 /* SignPkcs1 */ => Some(SIGN_PKCS)
    case 0x49 /* DecryptPkcs1 */ => Some(DECRYPT_PKCS)
    case 0x4a /* ExportWrapped */ => Some(EXPORT_WRAPPED)
    case 0x4b /* ImportWrapped */ => Some(IMPORT_WRAPPED)
    case 0x4c /* PutWrapKey */ => Some(PUT_WRAP_KEY)
    case 0x4d /* GetLogEntries */ => Some(GET_LOG_ENTRIES)
    case 0x4f /* SetOption */ => Some(SET_OPTION)
    case 0x50 /* GetOption */ => Some(GET_OPTION)
    case 0x51 /* GetPseudoRandom */ => Some(GET_PSEUDO_RANDOM)
    case 0x52 /* PutHmacKey */ => Some(PUT_MAC_KEY)
    case 0x53 /* SignHmac */ => Some(SIGN_HMAC)
    case 0x55 /* SignPss */ => Some(SIGN_PSS)
    case 0x56 /* SignEcdsa */ => Some(SIGN_ECDSA)
    case 0x57 /* DeriveEcdh */ => Some(DERIVE_ECDH)
    case 0x59 /* DecryptOaep */ => Some(DECRYPT_OAEP)
    case 0x5a /* GenerateHmacKey */ => Some(GENERATE_HMAC_KEY)
    case 0x5b /* GenerateWrapKey */ => Some(GENERATE_WRAP_KEY)
    case 0x5c /* VerifyHmac */ => Some(VERIFY_HMAC)
    case 0x5d /* SignSshCertificate */ => Some(SIGN_SSH_CERTIFICATE)
    case 0x5e /* PutTemplate */ => Some(PUT_TEMPLATE)
    case 0x5f /* GetTemplate */ => Some(GET_TEMPLATE)
    case 0x60 /* DecryptOtp */ => Some(DECRYPT_OTP)
    case 0x61 /* CreateOtpAead */ => Some(CREATE_OTP_AEAD)
    case 0x62 /* RandomizeOtpAead */ => Some(RANDOMIZE_OTP_AEAD)
    case 0x64 /* SignAttestationCertificate */ => Some(SIGN_ATTESTATION_CERTIFICATE)
    case 0x65 /* PutOtpAeadKey */ => Some(PUT_OTP_AEAD_KEY)
    case 0x66 /* GenerateOtpAeadKey */ => Some(GENERATE_OTP_AEAD_KEY)
    case 0x67 /* SetLogIndex */ => Some(SET_OPTION)
    case 0x68 /* WrapData */ => Some(WRAP_DATA)
    case 0x69 /* UnwrapData */ => Some(UNWRAP_DATA)
    case 0x6a /* SignEddsa */ => Some(SIGN_EDDSA)
    case 0x6c /* ChangeAuthenticationKey */ => Some(CHANGE_AUTHENTICATION_KEY)
    case 0x6d /* PutSymmetricKey */ => Some(PUT_SYMMETRIC_KEY)
    case 0x6e /* GenerateSymmetricKey */ => Some(GENERATE_SYMMETRIC_KEY)
    case 0x6f /* DecryptEcb */ => Some(DECRYPT_ECB)
    case 0x70 /* EncryptEcb */ => Some(ENCRYPT_ECB)
    case 0x71 /* DecryptCbc */ => Some(DECRYPT_CBC)
    case 0x72 /* EncryptCbc */ => Some(ENCRYPT_CBC)
    case 0x73 /* PutPublicWrapKey */ => Some(PUT_PUBLIC_WRAP_KEY)
    case 0x74 /* GetRsaWrappedKey */ => Some(EXPORT_WRAPPED)
    case 0x75 /* PutRsaWrappedKey */ => Some(IMPORT_WRAPPED)
    case 0x76 /* ExportRsaWrapped */ => Some(EXPORT_WRAPPED)
    case 0x77 /* ImportRsaWrapped */ => Some(IMPORT_WRAPPED)
    case _ => None
  }

  /** Commands outside the audit gate. */
  predicate IsMeta(c: CommandCode) {
    || c == Cmd.Echo || c == Cmd.CreateSession || c == Cmd.AuthenticateSession || c == Cmd.SessionMessage
    || c == Cmd.GetDeviceInfo || c == Cmd.GetDevicePublicKey || c == Cmd.CloseSession
  }

  predicate CanBeAudited(c: CommandCode) {
    !IsMeta(c) || c == Cmd.CreateSession || c == Cmd.AuthenticateSession
  }

  predicate ChangesPersistentState(c: CommandCode) {
    || c == Cmd.PutOpaque || c == Cmd.PutAuthenticationKey || c == Cmd.PutAsymmetricKey
    || c == Cmd.GenerateAsymmetricKey || c == Cmd.ImportWrapped || c == Cmd.PutWrapKey
    || c == Cmd.SetOption || c == Cmd.PutHmacKey || c == Cmd.GenerateHmacKey
    || c == Cmd.GenerateWrapKey || c == Cmd.DeleteObject || c == Cmd.PutTemplate
    || c == Cmd.PutOtpAeadKey || c == Cmd.GenerateOtpAeadKey || c == Cmd.SetLogIndex
    || c == Cmd.ChangeAuthenticationKey || c == Cmd.PutSymmetricKey || c == Cmd.GenerateSymmetricKey
    || c == Cmd.PutPublicWrapKey || c == Cmd.PutRsaWrappedKey || c == Cmd.ImportRsaWrapped
    || c == Cmd.ResetDevice
  }
}
